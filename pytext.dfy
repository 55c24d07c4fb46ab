/** Python's string primitives as the backend scripts use them: the `\s` class
    (the same table as `str.isspace`), `in` on strings, `str.replace` with a
    one-character pattern, `re.sub` over a character class and `str.strip`.
    Characters are Unicode scalar values, as Python's `str` holds them. */
module PyText {

  /** `c.isspace()`, which is also what `\s` matches in a `str` pattern. */
  predicate IsSpace(c: char) {
    ('\t' <= c <= '\r') || ('\U{1C}' <= c <= '\U{1F}') || c == ' '
    || c == '\U{85}' || c == '\U{A0}' || c == '\U{1680}'
    || ('\U{2000}' <= c <= '\U{200A}') || c == '\U{2028}' || c == '\U{2029}'
    || c == '\U{202F}' || c == '\U{205F}' || c == '\U{3000}'
  }

  /** The class `[\x00-\x7f]`. */
  predicate IsAscii(c: char) {
    c <= '\U{7F}'
  }

  /** The class `[\ue000-\uf8ff]`: the Basic Multilingual Plane's private-use area. */
  predicate IsPrivateUse(c: char) {
    '\U{E000}' <= c <= '\U{F8FF}'
  }

  /** `pat in text`. */
  predicate Contains(text: string, pat: string)
    decreases |text|
  {
    pat <= text || (text != [] && Contains(text[1..], pat))
  }

  /** The characters of `s` that are not in the class, in order. */
  function Without(s: string, inClass: char -> bool): (r: string)
    ensures |r| <= |s|
    ensures forall i :: 0 <= i < |r| ==> !inClass(r[i]) && r[i] in s
  {
    if s == [] then []
    else if inClass(s[0]) then Without(s[1..], inClass)
    else [s[0]] + Without(s[1..], inClass)
  }

  lemma {:induction false} WithoutAppend(a: string, b: string, inClass: char -> bool)
    ensures Without(a + b, inClass) == Without(a, inClass) + Without(b, inClass)
  {
    if a == [] {
      assert a + b == b;
    } else {
      assert (a + b)[0] == a[0];
      assert (a + b)[1..] == a[1..] + b;
      WithoutAppend(a[1..], b, inClass);
    }
  }

  // ---------------------------------------------------------------------------
  // str.replace with a one-character pattern

  /** `s.replace(bad, good)` where `bad` is a single character. */
  function ReplaceChar(s: string, bad: char, good: string): (r: string)
  {
    if s == [] then []
    else (if s[0] == bad then good else [s[0]]) + ReplaceChar(s[1..], bad, good)
  }

  /** Every character of the result comes from `good` or is a character of `s` other than `bad`. */
  lemma {:induction false} ReplaceCharChars(s: string, bad: char, good: string)
    ensures forall c :: c in ReplaceChar(s, bad, good) ==> c in good || (c in s && c != bad)
  {
    if s != [] {
      ReplaceCharChars(s[1..], bad, good);
    }
  }

  /** Replacing a character that does not occur changes nothing. */
  lemma {:induction false} ReplaceCharAbsent(s: string, bad: char, good: string)
    requires bad !in s
    ensures ReplaceChar(s, bad, good) == s
  {
    if s != [] {
      ReplaceCharAbsent(s[1..], bad, good);
      assert s == [s[0]] + s[1..];
    }
  }

  lemma {:induction false} ReplaceCharAppend(a: string, b: string, bad: char, good: string)
    ensures ReplaceChar(a + b, bad, good) == ReplaceChar(a, bad, good) + ReplaceChar(b, bad, good)
  {
    if a == [] {
      assert a + b == b;
    } else {
      assert (a + b)[0] == a[0];
      assert (a + b)[1..] == a[1..] + b;
      ReplaceCharAppend(a[1..], b, bad, good);
    }
  }

  /** The per-character rewrite: every character replaced by the string `f` gives for it.
      A reference definition for chains of single-character replacements. */
  function ConcatMap(s: string, f: char -> string): string
  {
    if s == [] then [] else f(s[0]) + ConcatMap(s[1..], f)
  }

  /** A replacement map, in the dictionary's iteration order. */
  type Replacements = seq<(char, string)>

  /** No value of the map contains a key of the map. */
  predicate ValuesAvoidKeys(pairs: Replacements) {
    forall i, j :: 0 <= i < |pairs| && 0 <= j < |pairs| ==> pairs[i].0 !in pairs[j].1
  }

  /** `for bad, good in pairs: text = text.replace(bad, good)`. */
  function ReplaceEach(s: string, pairs: Replacements): (r: string)
    decreases |pairs|
  {
    if pairs == [] then s
    else
      var last := pairs[|pairs| - 1];
      ReplaceChar(ReplaceEach(s, pairs[..|pairs| - 1]), last.0, last.1)
  }

  /** After the replacements no key is left, and every character comes from `s` or from a value. */
  lemma {:induction false} ReplaceEachChars(s: string, pairs: Replacements)
    requires ValuesAvoidKeys(pairs)
    ensures forall k :: 0 <= k < |pairs| ==> pairs[k].0 !in ReplaceEach(s, pairs)
    ensures forall c :: c in ReplaceEach(s, pairs) ==>
              c in s || exists k :: 0 <= k < |pairs| && c in pairs[k].1
  {
    if pairs != [] {
      var init, last := pairs[..|pairs| - 1], pairs[|pairs| - 1];
      assert ValuesAvoidKeys(init);
      ReplaceEachChars(s, init);
      var t := ReplaceEach(s, init);
      ReplaceCharChars(t, last.0, last.1);
      forall c | c in ReplaceEach(s, pairs)
        ensures c in s || exists k :: 0 <= k < |pairs| && c in pairs[k].1
      {
        if c in last.1 {
          assert pairs[|pairs| - 1].1 == last.1;
        } else {
          assert c in t;
          if !(c in s) {
            var k :| 0 <= k < |init| && c in init[k].1;
            assert pairs[k] == init[k];
          }
        }
      }
      forall k | 0 <= k < |pairs|
        ensures pairs[k].0 !in ReplaceEach(s, pairs)
      {
        if k < |init| {
          assert init[k] == pairs[k];
          assert pairs[k].0 !in last.1;
        } else {
          assert pairs[k].0 == last.0;
          assert last.0 !in last.1;
        }
      }
    }
  }

  /** On a string holding no key the replacements change nothing. */
  lemma {:induction false} ReplaceEachAbsent(s: string, pairs: Replacements)
    requires forall k :: 0 <= k < |pairs| ==> pairs[k].0 !in s
    ensures ReplaceEach(s, pairs) == s
  {
    if pairs != [] {
      var init := pairs[..|pairs| - 1];
      ReplaceEachAbsent(s, init);
      ReplaceCharAbsent(s, pairs[|pairs| - 1].0, pairs[|pairs| - 1].1);
    }
  }

  /** A replacement whose key and value lie in the class `dropped` leaves the characters
      outside that class, in order. */
  lemma {:induction false} ReplaceCharKeepsOthers(s: string, bad: char, good: string, dropped: char -> bool)
    requires dropped(bad) && forall i :: 0 <= i < |good| ==> dropped(good[i])
    ensures Without(ReplaceChar(s, bad, good), dropped) == Without(s, dropped)
    decreases |s|
  {
    if s != [] {
      ReplaceCharKeepsOthers(s[1..], bad, good, dropped);
      var head := if s[0] == bad then good else [s[0]];
      WithoutAppend(head, ReplaceChar(s[1..], bad, good), dropped);
      if s[0] == bad {
        WithoutNoneKept(good, dropped);
      } else {
        assert head[1..] == [];
      }
    }
  }

  /** A string made only of class characters keeps nothing. */
  lemma {:induction false} WithoutNoneKept(s: string, dropped: char -> bool)
    requires forall i :: 0 <= i < |s| ==> dropped(s[i])
    ensures Without(s, dropped) == []
    decreases |s|
  {
    if s != [] {
      WithoutNoneKept(s[1..], dropped);
    }
  }

  /** Replacements whose keys and values all lie in `dropped` leave the other characters,
      in order. */
  lemma {:induction false} ReplaceEachKeepsOthers(s: string, pairs: Replacements, dropped: char -> bool)
    requires forall k :: 0 <= k < |pairs| ==> dropped(pairs[k].0)
    requires forall k, i :: 0 <= k < |pairs| && 0 <= i < |pairs[k].1| ==> dropped(pairs[k].1[i])
    ensures Without(ReplaceEach(s, pairs), dropped) == Without(s, dropped)
    decreases |pairs|
  {
    if pairs != [] {
      var init := pairs[..|pairs| - 1];
      var last := pairs[|pairs| - 1];
      ReplaceEachKeepsOthers(s, init, dropped);
      assert forall i :: 0 <= i < |last.1| ==> dropped(last.1[i]);
      ReplaceCharKeepsOthers(ReplaceEach(s, init), last.0, last.1, dropped);
    }
  }

  /** A character survives `Without` exactly when it occurs and is outside the class. */
  lemma {:induction false} WithoutMembers(s: string, dropped: char -> bool, c: char)
    ensures c in Without(s, dropped) <==> c in s && !dropped(c)
    decreases |s|
  {
    if s != [] {
      WithoutMembers(s[1..], dropped, c);
      assert s == [s[0]] + s[1..];
    }
  }

  // ---------------------------------------------------------------------------
  // re.sub over a character class

  /** `re.sub(r"[\ue000-\uf8ff]", good, s)`. */
  function SubPrivateUse(s: string, good: string): (r: string)
  {
    if s == [] then []
    else (if IsPrivateUse(s[0]) then good else [s[0]]) + SubPrivateUse(s[1..], good)
  }

  lemma {:induction false} SubPrivateUseAppend(a: string, b: string, good: string)
    ensures SubPrivateUse(a + b, good) == SubPrivateUse(a, good) + SubPrivateUse(b, good)
  {
    if a == [] {
      assert a + b == b;
    } else {
      assert (a + b)[0] == a[0];
      assert (a + b)[1..] == a[1..] + b;
      SubPrivateUseAppend(a[1..], b, good);
    }
  }

  /** The longest suffix of `s` that does not start with a character of the class. */
  function SkipRun(s: string, inClass: char -> bool): (r: string)
    ensures |r| <= |s|
    ensures s != [] && inClass(s[0]) ==> |r| < |s|
    ensures r == [] || !inClass(r[0])
  {
    if s != [] && inClass(s[0]) then SkipRun(s[1..], inClass) else s
  }

  /** SkipRun keeps a suffix of `s` and drops only a run of class characters. */
  lemma {:induction false} SkipRunDropsRun(s: string, inClass: char -> bool)
    ensures SkipRun(s, inClass) == s[|s| - |SkipRun(s, inClass)|..]
    ensures forall i :: 0 <= i < |s| - |SkipRun(s, inClass)| ==> inClass(s[i])
  {
    if s != [] && inClass(s[0]) {
      SkipRunDropsRun(s[1..], inClass);
      assert forall i :: 1 <= i < |s| ==> s[i] == s[1..][i - 1];
      assert s[1..][|s[1..]| - |SkipRun(s[1..], inClass)|..] == s[|s| - |SkipRun(s, inClass)|..];
    }
  }

  /** `re.sub(r'[C]+', [rep], s)`: each maximal run of characters of the class C becomes one `rep`. */
  function SubRuns(s: string, inClass: char -> bool, rep: char): (r: string)
    decreases |s|
  {
    if s == [] then []
    else if inClass(s[0]) then [rep] + SubRuns(SkipRun(s, inClass), inClass, rep)
    else [s[0]] + SubRuns(s[1..], inClass, rep)
  }

  /** Every character of the result is `rep` or a character of `s` outside the class. */
  lemma {:induction false} SubRunsChars(s: string, inClass: char -> bool, rep: char)
    ensures forall i :: 0 <= i < |SubRuns(s, inClass, rep)| ==>
              SubRuns(s, inClass, rep)[i] == rep
              || (!inClass(SubRuns(s, inClass, rep)[i]) && SubRuns(s, inClass, rep)[i] in s)
    decreases |s|
  {
    if s != [] {
      if inClass(s[0]) {
        var t := SkipRun(s, inClass);
        SubRunsChars(t, inClass, rep);
        SkipRunDropsRun(s, inClass);
        assert forall c :: c in t ==> c in s;
      } else {
        SubRunsChars(s[1..], inClass, rep);
      }
    }
  }

  /** No two adjacent characters of `s` are both in the class. */
  predicate NoAdjacent(s: string, inClass: char -> bool) {
    forall i :: 0 <= i < |s| - 1 ==> !(inClass(s[i]) && inClass(s[i + 1]))
  }

  /** A string that starts outside the class keeps its first character. */
  lemma SubRunsHead(s: string, inClass: char -> bool, rep: char)
    requires s != [] && !inClass(s[0])
    ensures SubRuns(s, inClass, rep) != [] && SubRuns(s, inClass, rep)[0] == s[0]
  {
  }

  /** Runs never touch: the result never has two adjacent class characters. */
  lemma {:induction false} SubRunsNoAdjacent(s: string, inClass: char -> bool, rep: char)
    ensures NoAdjacent(SubRuns(s, inClass, rep), inClass)
    decreases |s|
  {
    if s != [] {
      var r := SubRuns(s, inClass, rep);
      if inClass(s[0]) {
        var t := SkipRun(s, inClass);
        SubRunsNoAdjacent(t, inClass, rep);
        if t != [] {
          SubRunsHead(t, inClass, rep);
        }
        assert r == [rep] + SubRuns(t, inClass, rep);
      } else {
        SubRunsNoAdjacent(s[1..], inClass, rep);
        assert r == [s[0]] + SubRuns(s[1..], inClass, rep);
      }
    }
  }

  lemma {:induction false} SkipRunAppend(a: string, b: string, inClass: char -> bool)
    requires b != [] && !inClass(b[0])
    ensures SkipRun(a + b, inClass) == SkipRun(a, inClass) + b
  {
    if a == [] {
      assert a + b == b;
    } else {
      assert (a + b)[0] == a[0];
      if inClass(a[0]) {
        assert (a + b)[1..] == a[1..] + b;
        SkipRunAppend(a[1..], b, inClass);
      }
    }
  }

  /** A character outside the class separates runs: the rewrite works piecewise around it. */
  lemma {:induction false} SubRunsSplit(a: string, c: char, b: string, inClass: char -> bool, rep: char)
    requires !inClass(c)
    ensures SubRuns(a + [c] + b, inClass, rep)
         == SubRuns(a, inClass, rep) + [c] + SubRuns(b, inClass, rep)
    decreases |a|
  {
    if a == [] {
      var s := a + [c] + b;
      assert s[0] == c && s[1..] == b;
    } else if inClass(a[0]) {
      SubRunsSplit(SkipRun(a, inClass), c, b, inClass, rep);
      SubRunsSplitAtRun(a, c, b, inClass, rep);
    } else {
      SubRunsSplit(a[1..], c, b, inClass, rep);
      SubRunsSplitAtOther(a, c, b, inClass, rep);
    }
  }

  /** The step of SubRunsSplit where `a` starts with a run. */
  lemma SubRunsSplitAtRun(a: string, c: char, b: string, inClass: char -> bool, rep: char)
    requires !inClass(c) && a != [] && inClass(a[0])
    requires SubRuns(SkipRun(a, inClass) + [c] + b, inClass, rep)
          == SubRuns(SkipRun(a, inClass), inClass, rep) + [c] + SubRuns(b, inClass, rep)
    ensures SubRuns(a + [c] + b, inClass, rep)
         == SubRuns(a, inClass, rep) + [c] + SubRuns(b, inClass, rep)
  {
    var s := a + [c] + b;
    var t := SkipRun(a, inClass);
    SkipRunOfConcat(a, c, b, inClass);
    SubRunsOfRunStart(s, inClass, rep);
    SubRunsOfRunStart(a, inClass, rep);
  }

  /** Skipping the leading run of `a + [c] + b`, where `c` ends any run, skips it in `a`. */
  lemma SkipRunOfConcat(a: string, c: char, b: string, inClass: char -> bool)
    requires !inClass(c)
    ensures SkipRun(a + [c] + b, inClass) == SkipRun(a, inClass) + [c] + b
  {
    var cb := [c] + b;
    assert a + [c] + b == a + cb;
    SkipRunAppend(a, cb, inClass);
    assert SkipRun(a, inClass) + cb == SkipRun(a, inClass) + [c] + b;
  }

  /** A string that starts with a run: one `rep`, then the rest after the run. */
  lemma SubRunsOfRunStart(s: string, inClass: char -> bool, rep: char)
    requires s != [] && inClass(s[0])
    ensures SubRuns(s, inClass, rep) == [rep] + SubRuns(SkipRun(s, inClass), inClass, rep)
  {
  }

  /** The step of SubRunsSplit where `a` starts outside the class. */
  lemma SubRunsSplitAtOther(a: string, c: char, b: string, inClass: char -> bool, rep: char)
    requires !inClass(c) && a != [] && !inClass(a[0])
    requires SubRuns(a[1..] + [c] + b, inClass, rep)
          == SubRuns(a[1..], inClass, rep) + [c] + SubRuns(b, inClass, rep)
    ensures SubRuns(a + [c] + b, inClass, rep)
         == SubRuns(a, inClass, rep) + [c] + SubRuns(b, inClass, rep)
  {
    var s := a + [c] + b;
    TailOfConcat(a, c, b);
    assert s[0] == a[0];
    SubRunsOfOtherStart(s, inClass, rep);
    SubRunsOfOtherStart(a, inClass, rep);
  }

  lemma TailOfConcat(a: string, c: char, b: string)
    requires a != []
    ensures (a + [c] + b)[1..] == a[1..] + [c] + b
  {
  }

  /** A string that starts outside the class keeps its first character, then the rest. */
  lemma SubRunsOfOtherStart(s: string, inClass: char -> bool, rep: char)
    requires s != [] && !inClass(s[0])
    ensures SubRuns(s, inClass, rep) == [s[0]] + SubRuns(s[1..], inClass, rep)
  {
  }

  /** A string made of class characters only is skipped entirely. */
  lemma {:induction false} SkipRunOfRun(s: string, inClass: char -> bool)
    requires forall i :: 0 <= i < |s| ==> inClass(s[i])
    ensures SkipRun(s, inClass) == []
    decreases |s|
  {
    if s != [] {
      forall i | 0 <= i < |s| - 1
        ensures inClass(s[1..][i])
      {
        assert s[1..][i] == s[i + 1];
      }
      SkipRunOfRun(s[1..], inClass);
    }
  }

  /** A non-empty run of class characters becomes exactly one `rep`. */
  lemma SubRunsOfRun(s: string, inClass: char -> bool, rep: char)
    requires s != [] && forall i :: 0 <= i < |s| ==> inClass(s[i])
    ensures SubRuns(s, inClass, rep) == [rep]
  {
    SkipRunOfRun(s, inClass);
  }

  /** One run of class characters between two stretches with none becomes one `rep`. */
  lemma {:induction false} SubRunsOneRun(a: string, run: string, b: string, inClass: char -> bool, rep: char)
    requires a != [] && run != [] && b != []
    requires forall i :: 0 <= i < |a| ==> !inClass(a[i])
    requires forall i :: 0 <= i < |run| ==> inClass(run[i])
    requires forall i :: 0 <= i < |b| ==> !inClass(b[i])
    ensures SubRuns(a + run + b, inClass, rep) == a + [rep] + b
  {
    var x := a + run;
    var c, rest := b[0], b[1..];
    assert a + run + b == x + [c] + rest by {
      assert b == [c] + rest;
    }
    assert SubRuns(x + [c] + rest, inClass, rep) == SubRuns(x, inClass, rep) + [c] + SubRuns(rest, inClass, rep) by {
      SubRunsSplit(x, c, rest, inClass, rep);
    }
    assert SubRuns(x, inClass, rep) == a + [rep] by {
      SubRunsWordRun(a, run, inClass, rep);
    }
    assert SubRuns(rest, inClass, rep) == rest by {
      SubRunsFixed(rest, inClass, rep);
    }
    assert a + [rep] + [c] + rest == a + [rep] + b by {
      assert [c] + rest == b;
    }
  }

  /** A stretch with no class character followed by a run keeps the stretch and ends in
      one `rep`. */
  lemma {:induction false} SubRunsWordRun(a: string, run: string, inClass: char -> bool, rep: char)
    requires a != [] && run != []
    requires forall i :: 0 <= i < |a| ==> !inClass(a[i])
    requires forall i :: 0 <= i < |run| ==> inClass(run[i])
    ensures SubRuns(a + run, inClass, rep) == a + [rep]
  {
    var front, last := a[..|a| - 1], a[|a| - 1];
    assert a + run == front + [last] + run by {
      assert a == front + [last];
    }
    SubRunsSplit(front, last, run, inClass, rep);
    SubRunsOfRun(run, inClass, rep);
    SubRunsFixed(front, inClass, rep);
    assert front + [last] == a;
  }

  /** A string already in rewritten form (class characters are single `rep`s) is left as is. */
  lemma {:induction false} SubRunsFixed(s: string, inClass: char -> bool, rep: char)
    requires forall i :: 0 <= i < |s| && inClass(s[i]) ==> s[i] == rep
    requires NoAdjacent(s, inClass)
    ensures SubRuns(s, inClass, rep) == s
    decreases |s|
  {
    if s != [] {
      var rest := s[1..];
      assert NoAdjacent(rest, inClass) by {
        forall i | 0 <= i < |rest| - 1 ensures !(inClass(rest[i]) && inClass(rest[i + 1])) {
          assert rest[i] == s[i + 1] && rest[i + 1] == s[i + 2];
        }
      }
      SubRunsFixed(rest, inClass, rep);
      if inClass(s[0]) {
        assert rest == [] || !inClass(rest[0]);
        assert SkipRun(s, inClass) == rest;
      }
      assert s == [s[0]] + rest;
    }
  }

  /** Every class character is also a dropped character. */
  predicate Within(inClass: char -> bool, dropped: char -> bool) {
    forall c :: inClass(c) ==> dropped(c)
  }

  /** Dropping characters of a wider class after a narrower one drops them all the same. */
  lemma {:induction false} WithoutNested(s: string, inClass: char -> bool, dropped: char -> bool)
    requires Within(inClass, dropped)
    ensures Without(Without(s, inClass), dropped) == Without(s, dropped)
  {
    if s != [] {
      WithoutNested(s[1..], inClass, dropped);
      if !inClass(s[0]) {
        WithoutAppend([s[0]], Without(s[1..], inClass), dropped);
      }
    }
  }

  /** With no class character in `s`, dropping the class changes nothing. */
  lemma {:induction false} WithoutNone(s: string, inClass: char -> bool)
    requires forall i :: 0 <= i < |s| ==> !inClass(s[i])
    ensures Without(s, inClass) == s
  {
    if s != [] {
      WithoutNone(s[1..], inClass);
      assert s == [s[0]] + s[1..];
    }
  }

  /** When the runs and `rep` are all dropped, the other characters pass through in order. */
  lemma {:induction false} SubRunsKeepsOthers(s: string, inClass: char -> bool, rep: char, dropped: char -> bool)
    requires Within(inClass, dropped) && dropped(rep)
    ensures Without(SubRuns(s, inClass, rep), dropped) == Without(s, dropped)
    decreases |s|
  {
    if s != [] {
      if inClass(s[0]) {
        var t := SkipRun(s, inClass);
        SubRunsKeepsOthers(t, inClass, rep, dropped);
        SkipRunKeepsOthers(s, inClass, dropped);
        WithoutAppend([rep], SubRuns(t, inClass, rep), dropped);
      } else {
        SubRunsKeepsOthers(s[1..], inClass, rep, dropped);
        WithoutAppend([s[0]], SubRuns(s[1..], inClass, rep), dropped);
      }
    }
  }

  // ---------------------------------------------------------------------------
  // str.strip

  /** `s.rstrip(chars)` for the class. */
  function StripRight(s: string, inClass: char -> bool): (r: string)
    ensures |r| <= |s|
    ensures r != [] ==> r[0] == s[0]
    ensures r == [] || !inClass(r[|r| - 1])
    decreases |s|
  {
    if s != [] && inClass(s[|s| - 1]) then StripRight(s[..|s| - 1], inClass) else s
  }

  /** StripRight keeps a prefix of `s` and drops only a run of class characters. */
  lemma {:induction false} StripRightDropsRun(s: string, inClass: char -> bool)
    ensures StripRight(s, inClass) == s[..|StripRight(s, inClass)|]
    ensures forall i :: |StripRight(s, inClass)| <= i < |s| ==> inClass(s[i])
    decreases |s|
  {
    if s != [] && inClass(s[|s| - 1]) {
      StripRightDropsRun(s[..|s| - 1], inClass);
    }
  }

  /** `s.strip(chars)` for the class: drop the leading and the trailing class characters. */
  function Strip(s: string, inClass: char -> bool): (r: string)
    ensures |r| <= |s|
    ensures r == [] || (!inClass(r[0]) && !inClass(r[|r| - 1]))
  {
    StripRight(SkipRun(s, inClass), inClass)
  }

  /** The strip of `s` is a contiguous piece of `s`. */
  lemma StripSlice(s: string, inClass: char -> bool)
    ensures var k := |s| - |SkipRun(s, inClass)|;
            k + |Strip(s, inClass)| <= |s| && Strip(s, inClass) == s[k..k + |Strip(s, inClass)|]
  {
    SkipRunDropsRun(s, inClass);
    StripRightDropsRun(SkipRun(s, inClass), inClass);
  }

  /** A string that neither starts nor ends in the class is its own strip. */
  lemma StripFixed(s: string, inClass: char -> bool)
    requires s == [] || (!inClass(s[0]) && !inClass(s[|s| - 1]))
    ensures Strip(s, inClass) == s
  {
  }

  lemma {:induction false} SkipRunKeepsOthers(s: string, inClass: char -> bool, dropped: char -> bool)
    requires Within(inClass, dropped)
    ensures Without(SkipRun(s, inClass), dropped) == Without(s, dropped)
  {
    if s != [] && inClass(s[0]) {
      SkipRunKeepsOthers(s[1..], inClass, dropped);
    }
  }

  lemma {:induction false} StripRightKeepsOthers(s: string, inClass: char -> bool, dropped: char -> bool)
    requires Within(inClass, dropped)
    ensures Without(StripRight(s, inClass), dropped) == Without(s, dropped)
    decreases |s|
  {
    if s != [] && inClass(s[|s| - 1]) {
      var p := s[..|s| - 1];
      StripRightKeepsOthers(p, inClass, dropped);
      assert s == p + [s[|s| - 1]];
      WithoutAppend(p, [s[|s| - 1]], dropped);
      assert Without([s[|s| - 1]], dropped) == [];
    }
  }

  /** Stripping only drops class characters. */
  lemma StripKeepsOthers(s: string, inClass: char -> bool, dropped: char -> bool)
    requires Within(inClass, dropped)
    ensures Without(Strip(s, inClass), dropped) == Without(s, dropped)
  {
    SkipRunKeepsOthers(s, inClass, dropped);
    StripRightKeepsOthers(SkipRun(s, inClass), inClass, dropped);
  }

  // ---------------------------------------------------------------------------
  // re.sub(r'\s+', ' ', s).strip()

  /** `re.sub(r'\s+', ' ', s).strip()`. */
  function NormalizeSpace(s: string): (r: string)
  {
    Strip(SubRuns(s, IsSpace, ' '), IsSpace)
  }

  /** The shape every normalized string has. */
  predicate SpaceNormal(s: string) {
    (s == [] || (!IsSpace(s[0]) && !IsSpace(s[|s| - 1])))
    && NoAdjacent(s, IsSpace)
    && forall i :: 0 <= i < |s| && IsSpace(s[i]) ==> s[i] == ' '
  }

  /** The result is trimmed, has no two adjacent whitespace characters, uses only ' ' as
      whitespace, keeps every other character of `s` in order, and brings in nothing else. */
  lemma {:induction false} NormalizeSpaceShape(s: string)
    ensures SpaceNormal(NormalizeSpace(s))
    ensures Without(NormalizeSpace(s), IsSpace) == Without(s, IsSpace)
    ensures forall c :: c in NormalizeSpace(s) ==> c == ' ' || c in s
  {
    var m := SubRuns(s, IsSpace, ' ');
    var r := NormalizeSpace(s);
    SubRunsChars(s, IsSpace, ' ');
    SubRunsNoAdjacent(s, IsSpace, ' ');
    var k := |m| - |SkipRun(m, IsSpace)|;
    StripSlice(m, IsSpace);
    assert r == m[k..k + |r|];
    forall i | 0 <= i < |r|
      ensures r[i] == m[k + i]
    {
    }
    SubRunsKeepsOthers(s, IsSpace, ' ', IsSpace);
    StripKeepsOthers(m, IsSpace, IsSpace);
  }

  /** Whitespace normalization keeps every character outside a class that holds all
      whitespace, in order. */
  lemma NormalizeSpaceKeepsOthers(s: string, dropped: char -> bool)
    requires Within(IsSpace, dropped)
    ensures Without(NormalizeSpace(s), dropped) == Without(s, dropped)
  {
    NormalizeSpaceShape(s);
    WithoutNested(NormalizeSpace(s), IsSpace, dropped);
    WithoutNested(s, IsSpace, dropped);
  }

  /** A normal string is its own normalization. */
  lemma NormalizeSpaceFixed(s: string)
    requires SpaceNormal(s)
    ensures NormalizeSpace(s) == s
  {
    SubRunsFixed(s, IsSpace, ' ');
    StripFixed(s, IsSpace);
  }

  /** Normalizing twice is normalizing once. */
  lemma NormalizeSpaceIdempotent(s: string)
    ensures NormalizeSpace(NormalizeSpace(s)) == NormalizeSpace(s)
  {
    NormalizeSpaceShape(s);
    NormalizeSpaceFixed(NormalizeSpace(s));
  }
}
