/**
 Turning a branch name into the name of the rule-set that checks it.

 The exercise name is the last path component of the branch, rewritten by
 replacing every dash and the one character after it with that character
 capitalised (the regular-expression rewrite of `-(.?)`), and then with its
 first letter capitalised: `feature/intro-to-loops` names the rule-set
 `IntroToLoops`. On names with two dashes in a row the second dash is the
 character after the first and survives: `a--b` names `A-b`. Capitalising
 is ASCII only: `a`..`z` become `A`..`Z` and every other character is kept.
 */
module Naming {

  /** ASCII upper-casing of one character. */
  function Upper(c: char): (u: char)
    ensures 'a' <= c <= 'z' ==> 'A' <= u <= 'Z' && u as int == c as int - 32
    ensures !('a' <= c <= 'z') ==> u == c
  {
    if 'a' <= c <= 'z' then (c as int - 32) as char else c
  }

  /** `ucfirst`: the string with its first character upper-cased. */
  function UcFirst(s: string): (r: string)
    ensures |r| == |s|
    ensures |s| > 0 ==> r[0] == Upper(s[0]) && r[1..] == s[1..]
  {
    if |s| == 0 then s else [Upper(s[0])] + s[1..]
  }

  /** The string without the slashes it ends with. */
  function TrimTrailingSlashes(s: string): (r: string)
    ensures |r| <= |s| && r == s[..|r|]
    ensures |r| == 0 || r[|r| - 1] != '/'
    ensures forall i :: |r| <= i < |s| ==> s[i] == '/'
    decreases |s|
  {
    if |s| > 0 && s[|s| - 1] == '/' then TrimTrailingSlashes(s[..|s| - 1]) else s
  }

  /** The longest suffix of the string that holds no slash. */
  function AfterLastSlash(s: string): (r: string)
    ensures '/' !in r
    ensures |r| <= |s| && r == s[|s| - |r|..]
    ensures |r| < |s| ==> s[|s| - |r| - 1] == '/'
    decreases |s|
  {
    if |s| == 0 then s
    else if s[|s| - 1] == '/' then ""
    else AfterLastSlash(s[..|s| - 1]) + [s[|s| - 1]]
  }

  /**
   `basename`: the last component of a `/`-separated path, ignoring slashes
   at its end (`a/b/` gives `b`, `/` gives the empty string).
   */
  function Basename(path: string): (r: string)
    ensures '/' !in r
    ensures '/' !in path ==> r == path
  {
    AfterLastSlash(TrimTrailingSlashes(path))
  }

  /**
   The rewrite of every match of the pattern `-(.?)` by the upper-cased
   group, scanning left to right. A dash is dropped together with the
   character after it, which comes back upper-cased; a dash at the end is
   just dropped. As in the regular-expression engine, `.` does not match a
   line feed, so a dash before a line feed is dropped on its own.
   */
  function DashToCamelCase(s: string): string
    decreases |s|
  {
    if |s| == 0 then ""
    else if s[0] != '-' then [s[0]] + DashToCamelCase(s[1..])
    else if |s| == 1 then ""
    else if s[1] == '\n' then DashToCamelCase(s[1..])
    else [Upper(s[1])] + DashToCamelCase(s[2..])
  }

  /** The name of the rule-set that a branch designates. */
  function NormalizeName(branch: string): string {
    UcFirst(DashToCamelCase(Basename(branch)))
  }

  /** The string holds two dashes in a row. */
  predicate HasDoubleDash(s: string) {
    exists i :: 0 <= i < |s| - 1 && s[i] == '-' && s[i + 1] == '-'
  }

  // ---------------------------------------------------------------------
  // The word-splitting reading of the name: split on every dash, capitalise
  // each word after the first, concatenate.
  // ---------------------------------------------------------------------

  /** The maximal dash-free runs of the string, in order; one more than its dashes. */
  function SplitOnDash(s: string): (words: seq<string>)
    ensures |words| >= 1
    decreases |s|
  {
    if |s| == 0 then [""]
    else if s[0] == '-' then [""] + SplitOnDash(s[1..])
    else
      var rest := SplitOnDash(s[1..]);
      [[s[0]] + rest[0]] + rest[1..]
  }

  /** The words concatenated, each one capitalised. */
  function CapitalizedConcat(words: seq<string>): string
    decreases |words|
  {
    if |words| == 0 then "" else UcFirst(words[0]) + CapitalizedConcat(words[1..])
  }

  /** The first word as it is, followed by the others capitalised. */
  function CamelJoin(words: seq<string>): string
    requires |words| >= 1
  {
    words[0] + CapitalizedConcat(words[1..])
  }

  // ---------------------------------------------------------------------
  // Unfolding the rewrite
  // ---------------------------------------------------------------------

  /**
   Regrouping a concatenation that starts with one character. Calling this
   instead of asserting the regrouping inline keeps the solver from
   exploring the sequence axioms in the larger proofs that use it.
   */
  lemma ConsAssoc(c: char, a: string, t: string)
    ensures ([c] + a) + t == [c] + (a + t)
  {
  }

  /** A character other than a dash passes through the rewrite untouched. */
  lemma CamelOfPlainHead(c: char, t: string)
    requires c != '-'
    ensures DashToCamelCase([c] + t) == [c] + DashToCamelCase(t)
  {
    assert ([c] + t)[1..] == t;
  }

  /** A dash-free prefix passes through the rewrite untouched. */
  lemma {:induction false} CamelOfPlainPrefix(w: string, t: string)
    requires '-' !in w
    ensures DashToCamelCase(w + t) == w + DashToCamelCase(t)
    decreases |w|
  {
    if |w| == 0 {
      assert w + t == t;
    } else {
      var c, u := w[0], w[1..];
      assert w == [c] + u;
      assert c != '-' && '-' !in u;
      ConsAssoc(c, u, t);
      CamelOfPlainHead(c, u + t);
      CamelOfPlainPrefix(u, t);
      ConsAssoc(c, u, DashToCamelCase(t));
    }
  }

  /** A dash and the character after it become that character upper-cased. */
  lemma CamelOfDashPair(c: char, t: string)
    ensures DashToCamelCase(['-', c] + t) == [Upper(c)] + DashToCamelCase(t)
  {
    var s := ['-', c] + t;
    assert s[2..] == t && s[1..] == [c] + t && ([c] + t)[1..] == t;
  }

  /** A dash followed by a character other than a dash becomes that character upper-cased. */
  lemma CamelOfDashHead(s: string)
    requires |s| > 1 && s[0] == '-' && s[1] != '-'
    ensures DashToCamelCase(s) == [Upper(s[1])] + DashToCamelCase(s[2..])
  {
    if s[1] == '\n' {
      assert s[1..][1..] == s[2..];
    }
  }

  // ---------------------------------------------------------------------
  // Properties of the rewrite
  // ---------------------------------------------------------------------

  /** A string without dashes is left as it is. */
  lemma CamelWithoutDashIsIdentity(s: string)
    requires '-' !in s
    ensures DashToCamelCase(s) == s
  {
    CamelOfPlainPrefix(s, "");
    assert s + "" == s;
  }

  /** Every dash is consumed: the rewrite never lengthens and shortens whenever there is a dash. */
  lemma {:induction false} CamelShortens(s: string)
    ensures |DashToCamelCase(s)| <= |s|
    ensures '-' in s ==> |DashToCamelCase(s)| < |s|
    decreases |s|
  {
    if |s| == 0 {
    } else if s[0] != '-' {
      CamelShortens(s[1..]);
      assert '-' in s ==> '-' in s[1..] by {
        if '-' in s {
          var i :| 0 <= i < |s| && s[i] == '-';
          assert s[1..][i - 1] == '-';
        }
      }
    } else if |s| == 1 {
    } else if s[1] == '\n' {
      CamelShortens(s[1..]);
    } else {
      CamelShortens(s[2..]);
    }
  }

  /** Dropping a prefix in which no pair of dashes starts keeps the question open. */
  lemma DoubleDashTail(s: string, k: nat)
    requires k <= |s|
    requires forall i :: 0 <= i < k && i + 1 < |s| ==> !(s[i] == '-' && s[i + 1] == '-')
    ensures HasDoubleDash(s) <==> HasDoubleDash(s[k..])
  {
    if HasDoubleDash(s) {
      var i :| 0 <= i < |s| - 1 && s[i] == '-' && s[i + 1] == '-';
      assert i >= k;
      assert s[k..][i - k] == '-' && s[k..][i - k + 1] == '-';
    }
    if HasDoubleDash(s[k..]) {
      var j :| 0 <= j < |s[k..]| - 1 && s[k..][j] == '-' && s[k..][j + 1] == '-';
      assert s[j + k] == '-' && s[j + k + 1] == '-';
    }
  }

  /**
   A dash survives the rewrite exactly when the input holds two dashes in a
   row: the second dash of such a pair is the group of a match and comes
   back (upper-casing leaves it alone).
   */
  lemma {:induction false} DashSurvivesIffDoubleDash(s: string)
    ensures '-' in DashToCamelCase(s) <==> HasDoubleDash(s)
    decreases |s|
  {
    if |s| == 0 {
    } else if s[0] != '-' {
      DashSurvivesIffDoubleDash(s[1..]);
      DoubleDashTail(s, 1);
      assert DashToCamelCase(s) == [s[0]] + DashToCamelCase(s[1..]);
    } else if |s| == 1 {
    } else if s[1] == '\n' {
      DashSurvivesIffDoubleDash(s[1..]);
      DoubleDashTail(s, 1);
    } else if s[1] == '-' {
      assert DashToCamelCase(s)[0] == '-';
      assert s[0] == '-' && s[1] == '-';
    } else {
      DashSurvivesIffDoubleDash(s[2..]);
      DoubleDashTail(s, 2);
      assert DashToCamelCase(s) == [Upper(s[1])] + DashToCamelCase(s[2..]);
    }
  }

  /**
   The rewrite brings in no character other than the input's own and
   capital letters.
   */
  lemma {:induction false} CamelKeepsOut(s: string, c: char)
    requires c !in s && !('A' <= c <= 'Z')
    ensures c !in DashToCamelCase(s)
    decreases |s|
  {
    if |s| == 0 {
    } else if s[0] != '-' || (|s| > 1 && s[1] == '\n') {
      assert c !in s[1..] by { assert forall i :: 0 <= i < |s[1..]| ==> s[1..][i] == s[i + 1]; }
      CamelKeepsOut(s[1..], c);
    } else if |s| > 1 {
      assert c !in s[2..] by { assert forall i :: 0 <= i < |s[2..]| ==> s[2..][i] == s[i + 2]; }
      CamelKeepsOut(s[2..], c);
      assert Upper(s[1]) != c;
    }
  }

  /** A first character other than a dash starts the first word. */
  lemma SplitOfPlainHead(s: string)
    requires |s| > 0 && s[0] != '-'
    ensures SplitOnDash(s)[0] == [s[0]] + SplitOnDash(s[1..])[0]
    ensures SplitOnDash(s)[1..] == SplitOnDash(s[1..])[1..]
  {
  }

  /** A first character that is a dash closes an empty first word. */
  lemma SplitOfDashHead(s: string)
    requires |s| > 0 && s[0] == '-'
    ensures SplitOnDash(s)[0] == ""
    ensures SplitOnDash(s)[1..] == SplitOnDash(s[1..])
  {
  }

  lemma JoinOfPlainHead(s: string)
    requires |s| > 0 && s[0] != '-'
    ensures CamelJoin(SplitOnDash(s)) == [s[0]] + CamelJoin(SplitOnDash(s[1..]))
  {
    SplitOfPlainHead(s);
    var rest := SplitOnDash(s[1..]);
    ConsAssoc(s[0], rest[0], CapitalizedConcat(rest[1..]));
  }

  /** A dash followed by a character other than a dash starts a capitalised word. */
  lemma JoinOfDashHead(s: string)
    requires |s| > 1 && s[0] == '-' && s[1] != '-'
    ensures CamelJoin(SplitOnDash(s)) == [Upper(s[1])] + CamelJoin(SplitOnDash(s[2..]))
  {
    SplitOfDashHead(s);
    SplitOfPlainHead(s[1..]);
    assert s[1..][1..] == s[2..];
    var rest := SplitOnDash(s[2..]);
    var tail := CapitalizedConcat(rest[1..]);
    var first := [s[1]] + rest[0];
    calc {
      CamelJoin(SplitOnDash(s));
      "" + CapitalizedConcat(SplitOnDash(s[1..]));
      { assert SplitOnDash(s[1..])[1..] == rest[1..]; }
      UcFirst(first) + tail;
      { assert UcFirst(first) == [Upper(s[1])] + rest[0]; }
      ([Upper(s[1])] + rest[0]) + tail;
      { ConsAssoc(Upper(s[1]), rest[0], tail); }
      [Upper(s[1])] + CamelJoin(rest);
    }
  }

  /**
   Without two dashes in a row the rewrite is the word-splitting reading:
   split on the dashes, capitalise every word after the first, join.
   */
  lemma {:induction false} CamelIsSplitAndCapitalize(s: string)
    requires !HasDoubleDash(s)
    ensures DashToCamelCase(s) == CamelJoin(SplitOnDash(s))
    decreases |s|
  {
    if |s| == 0 {
    } else if s[0] != '-' {
      DoubleDashTail(s, 1);
      CamelIsSplitAndCapitalize(s[1..]);
      JoinOfPlainHead(s);
    } else if |s| == 1 {
      assert s[1..] == "" && SplitOnDash("") == [""];
      assert SplitOnDash(s) == ["", ""];
      assert CapitalizedConcat([""]) == "" by { assert [""][1..] == []; }
    } else {
      assert s[1] != '-';
      DoubleDashTail(s, 2);
      CamelIsSplitAndCapitalize(s[2..]);
      JoinOfDashHead(s);
      CamelOfDashHead(s);
    }
  }

  /** Capitalising a dash-free word keeps it dash-free. */
  lemma UcFirstKeepsDashOut(w: string)
    requires '-' !in w
    ensures '-' !in UcFirst(w)
  {
    var r := UcFirst(w);
    forall i | 0 <= i < |r| ensures r[i] != '-' {
      if i > 0 {
        assert r[i] == r[1..][i - 1] == w[1..][i - 1] == w[i];
      }
    }
  }

  /** No word of the split holds a dash. */
  lemma {:induction false} SplitWordsHaveNoDash(s: string)
    ensures forall k :: 0 <= k < |SplitOnDash(s)| ==> '-' !in SplitOnDash(s)[k]
    decreases |s|
  {
    if |s| > 0 {
      SplitWordsHaveNoDash(s[1..]);
      var words, rest := SplitOnDash(s), SplitOnDash(s[1..]);
      if s[0] == '-' {
        SplitOfDashHead(s);
        forall k | 0 < k < |words| ensures '-' !in words[k] {
          assert words[k] == words[1..][k - 1] == rest[k - 1];
        }
      } else {
        SplitOfPlainHead(s);
        assert '-' !in words[0] by {
          forall i | 0 <= i < |words[0]| ensures words[0][i] != '-' {
            if i > 0 {
              assert words[0][i] == rest[0][i - 1];
            }
          }
        }
        forall k | 0 < k < |words| ensures '-' !in words[k] {
          assert words[k] == words[1..][k - 1] == rest[1..][k - 1] == rest[k];
        }
      }
    }
  }

  /** Capitalising and concatenating dash-free words gives a dash-free string. */
  lemma {:induction false} CapitalizedConcatHasNoDash(words: seq<string>)
    requires forall k :: 0 <= k < |words| ==> '-' !in words[k]
    ensures '-' !in CapitalizedConcat(words)
    decreases |words|
  {
    if |words| > 0 {
      assert forall k :: 0 <= k < |words[1..]| ==> words[1..][k] == words[k + 1];
      CapitalizedConcatHasNoDash(words[1..]);
      UcFirstKeepsDashOut(words[0]);
    }
  }

  /** The split reading never yields a dash. */
  lemma CamelJoinHasNoDash(s: string)
    ensures '-' !in CamelJoin(SplitOnDash(s))
  {
    var words := SplitOnDash(s);
    SplitWordsHaveNoDash(s);
    assert forall k :: 0 <= k < |words[1..]| ==> words[1..][k] == words[k + 1];
    CapitalizedConcatHasNoDash(words[1..]);
  }

  /**
   The rewrite and the split-and-capitalise reading agree exactly on the
   names without two dashes in a row.
   */
  lemma CamelIsSplitIffNoDoubleDash(s: string)
    ensures DashToCamelCase(s) == CamelJoin(SplitOnDash(s)) <==> !HasDoubleDash(s)
  {
    if HasDoubleDash(s) {
      DashSurvivesIffDoubleDash(s);
      CamelJoinHasNoDash(s);
    } else {
      CamelIsSplitAndCapitalize(s);
    }
  }

  /** With two dashes in a row the two readings part: `a--b` is `a-b` by the rewrite, `aB` by splitting. */
  lemma CamelDiffersFromSplitOnDoubleDash()
    ensures HasDoubleDash("a--b")
    ensures DashToCamelCase("a--b") == "a-b"
    ensures CamelJoin(SplitOnDash("a--b")) == "aB"
  {
    assert "a--b"[1] == '-' && "a--b"[2] == '-';
    CamelOfPlainPrefix("a", "--b");
    CamelOfDashPair('-', "b");
    CamelOfPlainPrefix("b", "");
    assert "a--b" == "a" + (['-', '-'] + "b");
    assert SplitOnDash("b") == ["b"] by {
      assert SplitOnDash("") == [""];
      assert ['b'] + "" == "b";
    }
    assert SplitOnDash("-b") == ["", "b"];
    assert SplitOnDash("--b") == ["", "", "b"];
    assert SplitOnDash("a--b") == ["a", "", "b"] by {
      assert ['a'] + "" == "a";
    }
    assert CapitalizedConcat(["", "b"]) == "B" by {
      assert ["", "b"][1..] == ["b"] && ["b"][1..] == [];
    }
  }

  /** `intro-to-loops` becomes `introToLoops`. */
  lemma CamelExample()
    ensures DashToCamelCase("intro" + "-to" + "-loops") == "intro" + "To" + "Loops"
  {
    var intro, to, loops := "intro", "to", "loops";
    var slug := intro + "-" + to + "-" + loops;
    assert slug == intro + (['-', to[0]] + (to[1..] + (['-', loops[0]] + loops[1..])));
    assert '-' !in intro && '-' !in to[1..] && '-' !in loops[1..];
    CamelOfPlainPrefix(intro, ['-', to[0]] + (to[1..] + (['-', loops[0]] + loops[1..])));
    CamelOfDashPair(to[0], to[1..] + (['-', loops[0]] + loops[1..]));
    CamelOfPlainPrefix(to[1..], ['-', loops[0]] + loops[1..]);
    CamelOfDashPair(loops[0], loops[1..]);
    CamelWithoutDashIsIdentity(loops[1..]);
    assert "intro" + "-to" + "-loops" == slug;
    assert "intro" + "To" + "Loops" == intro + ([Upper(to[0])] + (to[1..] + ([Upper(loops[0])] + loops[1..])));
  }

  // ---------------------------------------------------------------------
  // Properties of the last path component and of the normalised name
  // ---------------------------------------------------------------------

  /** What follows the last slash of `dir/word` is `word`. */
  lemma {:induction false} AfterLastSlashOfPath(dir: string, word: string)
    requires '/' !in word
    ensures AfterLastSlash(dir + "/" + word) == word
    decreases |word|
  {
    var path := dir + "/" + word;
    if |word| > 0 {
      var init := word[..|word| - 1];
      assert path[..|path| - 1] == dir + "/" + init;
      assert '/' !in init by { assert forall i :: 0 <= i < |init| ==> init[i] == word[i]; }
      AfterLastSlashOfPath(dir, init);
      assert path[|path| - 1] == word[|word| - 1];
      assert word == init + [word[|word| - 1]];
    }
  }

  /** The base name of `dir/word` is `word`, whatever the directory part. */
  lemma BasenameOfPath(dir: string, word: string)
    requires word != "" && '/' !in word
    ensures Basename(dir + "/" + word) == word
  {
    var path := dir + "/" + word;
    assert path[|path| - 1] == word[|word| - 1];
    assert TrimTrailingSlashes(path) == path;
    AfterLastSlashOfPath(dir, word);
  }

  /** Normalising `dir/slug` camel-cases `slug` and capitalises its first letter. */
  lemma NormalizeOfPath(dir: string, slug: string)
    requires slug != "" && '/' !in slug
    ensures NormalizeName(dir + "/" + slug) == UcFirst(DashToCamelCase(slug))
  {
    BasenameOfPath(dir, slug);
  }

  /** A branch `<dir>/intro-to-loops`, such as `feature/intro-to-loops`, names the rule-set `IntroToLoops`. */
  lemma NormalizeExample(dir: string)
    ensures NormalizeName(dir + "/" + ("intro" + "-to" + "-loops")) == "Intro" + "To" + "Loops"
  {
    var slug := "intro" + "-to" + "-loops";
    assert '/' !in slug;
    NormalizeOfPath(dir, slug);
    CamelExample();
    assert UcFirst("intro" + "To" + "Loops") == "Intro" + "To" + "Loops";
  }

  /**
   `a-b-c` names `ABC`; the empty branch names the empty rule-set name.
   The name arrives as a parameter fixed by `requires`, so that the
   verifier does not unroll the recursive rewrite on a string literal.
   */
  lemma NormalizeShortExamples(slug: string)
    requires slug == "a-b-c"
    ensures NormalizeName(slug) == "ABC"
    ensures NormalizeName("") == ""
  {
    var c: string := ['-', 'c'];
    var bc: string := ['-', 'b'] + c;
    assert slug == "a" + bc;
    assert '/' !in slug;
    CamelOfDashPair('c', "");
    assert c == ['-', 'c'] + "";
    CamelOfDashPair('b', c);
    CamelOfPlainPrefix("a", bc);
    assert DashToCamelCase(slug) == "a" + (['B'] + ['C']);
  }

  /**
   The normalised name never holds a slash, so it cannot name anything
   outside the directory of rule-sets.
   */
  lemma NormalizedNameHasNoSlash(branch: string)
    ensures '/' !in NormalizeName(branch)
  {
    var camel := DashToCamelCase(Basename(branch));
    CamelKeepsOut(Basename(branch), '/');
    var name := UcFirst(camel);
    forall i | 0 <= i < |name| ensures name[i] != '/' {
      assert i == 0 || name[i] == camel[i];
    }
  }

  lemma UcFirstIdempotent(s: string)
    ensures UcFirst(UcFirst(s)) == UcFirst(s)
  {
  }

  /**
   Normalising a second time changes nothing, provided the last path
   component of the branch holds no two dashes in a row.
   */
  lemma NormalizeIdempotent(branch: string)
    ensures !HasDoubleDash(Basename(branch)) ==> NormalizeName(NormalizeName(branch)) == NormalizeName(branch)
  {
    var base := Basename(branch);
    if !HasDoubleDash(base) {
      var camel := DashToCamelCase(base);
      var name := NormalizeName(branch);
      DashSurvivesIffDoubleDash(base);
      assert '-' !in name by {
        assert name == UcFirst(camel);
        forall i | 0 <= i < |name| ensures name[i] != '-' {
          assert i == 0 || name[i] == camel[i];
        }
      }
      NormalizedNameHasNoSlash(branch);
      CamelWithoutDashIsIdentity(name);
      UcFirstIdempotent(camel);
    }
  }

  /**
   Normalising a second time changes nothing exactly when the last path
   component of the branch holds no two dashes in a row: otherwise a dash
   survives into the name and the second pass consumes it.
   */
  lemma NormalizeIdempotentIffNoDoubleDash(branch: string)
    ensures NormalizeName(NormalizeName(branch)) == NormalizeName(branch) <==> !HasDoubleDash(Basename(branch))
  {
    NormalizeIdempotent(branch);
    var base := Basename(branch);
    if HasDoubleDash(base) {
      var camel := DashToCamelCase(base);
      var name := NormalizeName(branch);
      DashSurvivesIffDoubleDash(base);
      var i :| 0 <= i < |camel| && camel[i] == '-';
      assert name == UcFirst(camel);
      assert name[i] == '-' by {
        if i > 0 {
          assert name[i] == name[1..][i - 1] == camel[1..][i - 1];
        }
      }
      NormalizedNameHasNoSlash(branch);
      assert Basename(name) == name;
      CamelShortens(name);
      assert |NormalizeName(name)| < |name|;
    }
  }

  /**
   Normalising is not idempotent on names with two dashes in a row: `a--b`
   is an instance. The name is a parameter fixed by `requires`, so that the
   verifier does not unroll the recursive rewrite on a string literal.
   */
  lemma NormalizeNotIdempotentOnDoubleDash(slug: string)
    requires slug == "a--b"
    ensures NormalizeName(slug) == "A-b"
    ensures NormalizeName(NormalizeName(slug)) == "AB"
  {
    assert '/' !in slug;
    assert slug == "a" + (['-', '-'] + "b");
    CamelOfPlainPrefix("a", ['-', '-'] + "b");
    CamelOfDashPair('-', "b");
    var name := NormalizeName(slug);
    assert name == "A" + (['-', 'b'] + "");
    assert '/' !in name;
    CamelOfPlainPrefix("A", ['-', 'b'] + "");
    CamelOfDashPair('b', "");
  }
}
