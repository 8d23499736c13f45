/**
 The base of every exercise rule-set.

 A case is one push to be judged: the name of the exercise it was resolved
 to and the two revisions that bound the pushed commits. A rule-set judges
 a case through a small toolkit of checks that ask the git layer about the
 pushed commits and fail with a structured failure when the answer is not
 the expected one. The git layer itself is taken as given: its answers are
 the fields of a `GitService` value.
 */
module Verification {
  import opened Failures
  import opened Naming

  /**
   The answers of the git plumbing. `changedFiles` lists, in the order git
   reports them, the changed paths of a commit paired with their status.
   */
  datatype GitService = GitService(
    commitIdsBetween: (string, string) -> seq<string>,
    changedFiles: string -> seq<(string, string)>,
    commiterName: string -> string)

  /** One push to judge: the resolved exercise and the revisions it spans. */
  datatype Case = Case(exercise: string, oldRev: string, newRev: string)

  /** A registered exercise: its one-line description and its own checks. */
  datatype RuleSet = RuleSet(shortInfo: string, doVerify: (GitService, Case) -> Result<()>)

  datatype Option<T> = None | Some(value: T)

  /**
   What a count check hands back on success: the single item when exactly
   one was asked for, otherwise all of them.
   */
  datatype Shape<T> = One(item: T) | Many(items: seq<T>)

  function Items<T>(shape: Shape<T>): seq<T> {
    match shape
    case One(item) => [item]
    case Many(items) => items
  }

  // The failure templates, written out piece by piece around their placeholders. The
  // pieces let the lemmas below reason about each part instead of unrolling `Conversions`
  // over one long string literal, which the verifier cannot do cheaply.
  const CommitsMessage: string := "Expected number of commits: " + "%d" + ". Received " + "%d" + "."
  const FilesMessage: string := "Commit " + "%s" + " should contain " + "%d" + " files. " + "%d" + " received."
  const WrongExerciseMessage: string := "Wrong excercise."

  /** The basic check: passes when the condition holds, otherwise fails with the template and its arguments. */
  function Ensure(condition: bool, message: string, args: seq<Arg>): (r: Result<()>)
    ensures r.Ok? <==> condition
    ensures r.Err? ==> r.failure == VerificationFailure(message, args)
  {
    if condition then Ok(()) else Err(VerificationFailure(message, args))
  }

  /** The commits pushed in a case, in the order the git layer lists them. */
  function Commits(svc: GitService, c: Case): seq<string> {
    svc.commitIdsBetween(c.oldRev, c.newRev)
  }

  /** The first components of a sequence of pairs, in order. */
  function Keys<K, V>(pairs: seq<(K, V)>): (keys: seq<K>)
    ensures |keys| == |pairs|
    ensures forall i :: 0 <= i < |pairs| ==> keys[i] == pairs[i].0
  {
    if |pairs| == 0 then [] else [pairs[0].0] + Keys(pairs[1..])
  }

  /** The paths a commit changes, in the order the git layer lists them. */
  function Filenames(svc: GitService, commitId: string): (names: seq<string>)
    ensures |names| == |svc.changedFiles(commitId)|
    ensures forall i :: 0 <= i < |names| ==> names[i] == svc.changedFiles(commitId)[i].0
  {
    Keys(svc.changedFiles(commitId))
  }

  /** The abbreviated commit id used in messages: its first seven characters, or all of it if shorter. */
  function ShortHash(id: string): (h: string)
    ensures |h| <= 7 && |h| <= |id| && h == id[..|h|]
    ensures |id| <= 7 ==> h == id
    ensures |id| >= 7 ==> |h| == 7
  {
    if |id| <= 7 then id else id[..7]
  }

  /**
   Checks that the case pushes exactly `count` commits. On success the
   commits come back unchanged and in order, as the single commit when
   `count` is 1.
   */
  function EnsureCommitsCount(svc: GitService, c: Case, count: int): (r: Result<Shape<string>>)
    ensures r.Ok? <==> |Commits(svc, c)| == count
    ensures r.Err? ==> r.failure == VerificationFailure(CommitsMessage, [Int(count), Int(|Commits(svc, c)|)])
    ensures r.Ok? ==> Items(r.value) == Commits(svc, c)
    ensures r.Ok? ==> (r.value.One? <==> count == 1)
  {
    var commits := Commits(svc, c);
    var _ :- Ensure(|commits| == count, CommitsMessage, [Int(count), Int(|commits|)]);
    Ok(if count == 1 then One(commits[0]) else Many(commits))
  }

  /**
   Checks that commit `commitId` changes exactly `count` files. On success
   the paths come back unchanged and in order, as the single path when
   `count` is 1.
   */
  function EnsureFilesCount(svc: GitService, commitId: string, count: int): (r: Result<Shape<string>>)
    ensures r.Ok? <==> |svc.changedFiles(commitId)| == count
    ensures r.Err? ==> r.failure == VerificationFailure(FilesMessage,
      [Str(ShortHash(commitId)), Int(count), Int(|svc.changedFiles(commitId)|)])
    ensures r.Ok? ==> |Items(r.value)| == |svc.changedFiles(commitId)|
    ensures r.Ok? ==> forall i :: 0 <= i < |Items(r.value)| ==> Items(r.value)[i] == svc.changedFiles(commitId)[i].0
    ensures r.Ok? ==> (r.value.One? <==> count == 1)
  {
    var files := Filenames(svc, commitId);
    var _ :- Ensure(|files| == count, FilesMessage, [Str(ShortHash(commitId)), Int(count), Int(|files|)]);
    Ok(if count == 1 then One(files[0]) else Many(files))
  }

  /** A commit id counts as given unless it is absent, empty or "0". */
  predicate Given(commitId: Option<string>) {
    commitId.Some? && commitId.value != "" && commitId.value != "0"
  }

  /** The author of the given commit, or of the newest pushed revision when none is given. */
  function GetCommiterName(svc: GitService, c: Case, commitId: Option<string>): (name: string)
    ensures Given(commitId) ==> name == svc.commiterName(commitId.value)
    ensures commitId.None? ==> name == svc.commiterName(c.newRev)
    ensures commitId == Some("") || commitId == Some("0") ==> name == svc.commiterName(c.newRev)
  {
    svc.commiterName(if Given(commitId) then commitId.value else c.newRev)
  }

  /**
   Resolves a branch to the case of the exercise it names: unknown names are
   a usage error, never a failed check; known names keep the revisions as
   given.
   */
  function Factory(registry: map<string, RuleSet>, branch: string, oldRev: string, newRev: string): (r: Result<Case>)
    ensures r.Err? <==> NormalizeName(branch) !in registry
    ensures r.Err? ==> r.failure == WrongExercise(WrongExerciseMessage)
    ensures r.Ok? ==> r.value.exercise == NormalizeName(branch) && r.value.exercise in registry
    ensures r.Ok? ==> r.value.oldRev == oldRev && r.value.newRev == newRev
  {
    var name := NormalizeName(branch);
    if name !in registry then Err(WrongExercise(WrongExerciseMessage))
    else Ok(Case(name, oldRev, newRev))
  }

  /** Runs the checks of the exercise a case was resolved to. */
  function Verify(registry: map<string, RuleSet>, svc: GitService, c: Case): (r: Result<()>)
    requires c.exercise in registry
  {
    registry[c.exercise].doVerify(svc, c)
  }

  /** Two placeholders between plain text. */
  lemma ConversionsOfTwo(head: string, middle: string, tail: string, p0: string, p1: string)
    requires '%' !in head && '%' !in middle && '%' !in tail
    requires IsPlaceholder(p0) && IsPlaceholder(p1)
    ensures Conversions(head + p0 + middle + p1 + tail) == [p0[1], p1[1]]
  {
    ConversionsOfPlainPrefix(tail, "");
    assert tail + "" == tail;
    ConversionsOfPlaceholder(p1, tail);
    ConversionsOfPlainPrefix(middle, p1 + tail);
    ConversionsOfPlaceholder(p0, middle + (p1 + tail));
    ConversionsOfPlainPrefix(head, p0 + (middle + (p1 + tail)));
    RegroupFive(head, p0, middle, p1, tail);
  }

  // Associativity helpers: calling them instead of asserting the regrouping inline keeps
  // the solver from exploring the sequence axioms in the template lemmas.
  lemma RegroupFive(a: string, b: string, c: string, d: string, e: string)
    ensures a + b + c + d + e == a + (b + (c + (d + e)))
  {
  }

  /** Three placeholders between plain text. */
  lemma ConversionsOfThree(head: string, t1: string, t2: string, tail: string, p0: string, p1: string, p2: string)
    requires '%' !in head && '%' !in t1 && '%' !in t2 && '%' !in tail
    requires IsPlaceholder(p0) && IsPlaceholder(p1) && IsPlaceholder(p2)
    ensures Conversions(head + p0 + t1 + p1 + t2 + p2 + tail) == [p0[1], p1[1], p2[1]]
  {
    var rest := t1 + p1 + t2 + p2 + tail;
    ConversionsOfTwo(t1, t2, tail, p1, p2);
    ConversionsOfPlaceholder(p0, rest);
    ConversionsOfPlainPrefix(head, p0 + rest);
    RegroupSeven(head, p0, t1, p1, t2, p2, tail);
  }

  lemma RegroupSeven(a: string, b: string, c: string, d: string, e: string, f: string, g: string)
    ensures a + b + c + d + e + f + g == a + (b + (c + d + e + f + g))
  {
  }

  /** The commits-count template asks for two integers. */
  lemma CommitsMessageConversions()
    ensures Conversions(CommitsMessage) == ['d', 'd']
  {
    ConversionsOfTwo("Expected number of commits: ", ". Received ", ".", "%d", "%d");
  }

  /** The files-count template asks for a string and two integers. */
  lemma FilesMessageConversions()
    ensures Conversions(FilesMessage) == ['s', 'd', 'd']
  {
    ConversionsOfThree("Commit ", " should contain ", " files. ", " received.", "%s", "%d", "%d");
  }

  /** A failed commits-count check carries one argument of the right kind per placeholder. */
  lemma CommitsFailureWellFormed(svc: GitService, c: Case, count: int)
    ensures EnsureCommitsCount(svc, c, count).Err? ==> WellFormed(EnsureCommitsCount(svc, c, count).failure)
  {
    CommitsMessageConversions();
  }

  /** A failed files-count check carries one argument of the right kind per placeholder. */
  lemma FilesFailureWellFormed(svc: GitService, commitId: string, count: int)
    ensures EnsureFilesCount(svc, commitId, count).Err? ==> WellFormed(EnsureFilesCount(svc, commitId, count).failure)
  {
    FilesMessageConversions();
  }

  /** Asking for no commit names the author of the newest pushed revision, as naming it explicitly does. */
  lemma CommiterNameDefaultsToNewRev(svc: GitService, c: Case)
    ensures GetCommiterName(svc, c, None) == GetCommiterName(svc, c, Some(c.newRev))
  {
  }

  /** Only the last component of the branch matters: `dir/slug` resolves as `slug` does. */
  lemma FactoryOfPath(registry: map<string, RuleSet>, dir: string, slug: string, oldRev: string, newRev: string)
    requires slug != "" && '/' !in slug
    ensures Factory(registry, dir + "/" + slug, oldRev, newRev) == Factory(registry, slug, oldRev, newRev)
  {
    NormalizeOfPath(dir, slug);
  }

  /**
   A case's own exercise name resolves back to the same exercise, provided
   the branch name holds no double dash.
   */
  lemma FactoryResolvesOwnName(registry: map<string, RuleSet>, branch: string, oldRev: string, newRev: string,
                               oldRev': string, newRev': string)
    ensures Factory(registry, branch, oldRev, newRev).Ok? && !HasDoubleDash(Basename(branch)) ==>
      var name := Factory(registry, branch, oldRev, newRev).value.exercise;
      Factory(registry, name, oldRev', newRev') == Ok(Case(name, oldRev', newRev'))
  {
    NormalizeIdempotent(branch);
  }

  /** `feature/intro-to-loops` resolves to the `IntroToLoops` rule-set when that is registered, and fails otherwise. */
  lemma FactoryExample(registry: map<string, RuleSet>, dir: string, oldRev: string, newRev: string)
    ensures var r := Factory(registry, dir + "/" + ("intro" + "-to" + "-loops"), oldRev, newRev);
      if "Intro" + "To" + "Loops" in registry then r == Ok(Case("Intro" + "To" + "Loops", oldRev, newRev))
      else r == Err(WrongExercise(WrongExerciseMessage))
  {
    NormalizeExample(dir);
  }

  /** Running a resolved case runs the checks registered under its normalised name on exactly the given revisions. */
  lemma VerifyResolvedCase(registry: map<string, RuleSet>, svc: GitService, branch: string, oldRev: string, newRev: string)
    ensures Factory(registry, branch, oldRev, newRev).Ok? ==>
      var name := NormalizeName(branch);
      Verify(registry, svc, Factory(registry, branch, oldRev, newRev).value)
        == registry[name].doVerify(svc, Case(name, oldRev, newRev))
  {
  }
}
