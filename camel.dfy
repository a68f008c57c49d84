/**
 * MapHandsEditor.SplitCamelCase: the matches of the pattern [A-Z][a-z]*|[a-z]+|\d+ in a joint
 * name, and the autofill's choice of the joints whose names split into two or more words.
 */
module CamelCase {
  import opened Wrappers
  import opened Text

  predicate IsUpper(c: char) { 'A' <= c <= 'Z' }
  predicate IsLower(c: char) { 'a' <= c <= 'z' }
  predicate IsWordChar(c: char) { IsUpper(c) || IsLower(c) || IsDigit(c) }

  /** The length of the run of lower-case letters that starts at `i`. */
  function LowerRun(s: string, i: nat): (r: nat)
    requires i <= |s|
    ensures i + r <= |s|
    decreases |s| - i
  {
    if i < |s| && IsLower(s[i]) then 1 + LowerRun(s, i + 1) else 0
  }

  /** The length of the run of digits that starts at `i`. */
  function DigitRun(s: string, i: nat): (r: nat)
    requires i <= |s|
    ensures i + r <= |s|
    decreases |s| - i
  {
    if i < |s| && IsDigit(s[i]) then 1 + DigitRun(s, i + 1) else 0
  }

  /** A run of lower-case letters is all lower-case and stops before the next non-lower-case character. */
  lemma {:induction false} LowerRunSpec(s: string, i: nat)
    requires i <= |s|
    ensures forall j :: i <= j < i + LowerRun(s, i) ==> IsLower(s[j])
    ensures i + LowerRun(s, i) < |s| ==> !IsLower(s[i + LowerRun(s, i)])
    decreases |s| - i
  {
    if i < |s| && IsLower(s[i]) {
      LowerRunSpec(s, i + 1);
    }
  }

  /** A run of digits is all digits and stops before the next non-digit. */
  lemma {:induction false} DigitRunSpec(s: string, i: nat)
    requires i <= |s|
    ensures forall j :: i <= j < i + DigitRun(s, i) ==> IsDigit(s[j])
    ensures i + DigitRun(s, i) < |s| ==> !IsDigit(s[i + DigitRun(s, i)])
    decreases |s| - i
  {
    if i < |s| && IsDigit(s[i]) {
      DigitRunSpec(s, i + 1);
    }
  }

  /**
   * The length of the match that starts at `i`: the alternatives are tried in order and each
   * is greedy; 0 when none of them matches there.
   */
  function MatchAt(s: string, i: nat): (m: nat)
    requires i < |s|
    ensures i + m <= |s|
    ensures m == 0 <==> !IsWordChar(s[i])
  {
    if IsUpper(s[i]) then 1 + LowerRun(s, i + 1)
    else if IsLower(s[i]) then LowerRun(s, i)
    else if IsDigit(s[i]) then DigitRun(s, i)
    else 0
  }

  /** A match: where it starts in the source and the text it covers. */
  datatype Match = Match(index: nat, value: string)

  /**
   * Regex.Matches from position `i`: a match is taken where one starts, and the scan resumes
   * after it; a position where nothing matches is skipped.
   */
  function Matches(s: string, i: nat): seq<Match>
    requires i <= |s|
    decreases |s| - i
  {
    if i == |s| then []
    else
      var m := MatchAt(s, i);
      if m == 0 then Matches(s, i + 1) else [Match(i, s[i..i + m])] + Matches(s, i + m)
  }

  function Values(ms: seq<Match>): seq<string>
  {
    if ms == [] then [] else [ms[0].value] + Values(ms[1..])
  }

  /** SplitCamelCase: the text of every match, in order. */
  function SplitCamelCase(source: string): seq<string>
  {
    Values(Matches(source, 0))
  }

  /** One step of the scan: a skipped position, or a match followed by the rest of the scan. */
  lemma MatchesUnfold(s: string, i: nat)
    requires i < |s|
    ensures MatchAt(s, i) == 0 ==> Matches(s, i) == Matches(s, i + 1)
    ensures MatchAt(s, i) > 0 ==>
      Matches(s, i) == [Match(i, s[i..i + MatchAt(s, i)])] + Matches(s, i + MatchAt(s, i))
  {
  }

  /**
   * `mt` is a match of the pattern in `s`: its text is non-empty and stands at its index, it has
   * one of the three shapes (a capital and lower-case letters, lower-case letters, or digits),
   * and it is maximal: the character after it could not have extended it.
   */
  predicate IsMatchOf(s: string, mt: Match)
  {
    var v := mt.value;
    var end := mt.index + |v|;
    && 0 < |v| && end <= |s|
    && (forall j :: 0 <= j < |v| ==> s[mt.index + j] == v[j])
    && IsWordChar(v[0])
    && (forall j :: 0 < j < |v| ==> if IsDigit(v[0]) then IsDigit(v[j]) else IsLower(v[j]))
    && (end < |s| ==> !(if IsDigit(v[0]) then IsDigit(s[end]) else IsLower(s[end])))
  }

  /** The match taken at `i` is a match of the pattern. */
  lemma MatchAtIsMatch(s: string, i: nat)
    requires i < |s| && MatchAt(s, i) > 0
    ensures IsMatchOf(s, Match(i, s[i..i + MatchAt(s, i)]))
  {
    var v := s[i..i + MatchAt(s, i)];
    assert forall j :: 0 <= j < |v| ==> v[j] == s[i + j];
    if IsUpper(s[i]) {
      LowerRunSpec(s, i + 1);
    } else if IsLower(s[i]) {
      LowerRunSpec(s, i);
    } else {
      DigitRunSpec(s, i);
    }
  }

  /** Every match of the scan from `i` is a match of the pattern, at or after `i`. */
  lemma {:induction false} MatchesAreMatches(s: string, i: nat)
    requires i <= |s|
    ensures var ms := Matches(s, i);
      forall k :: 0 <= k < |ms| ==> i <= ms[k].index && IsMatchOf(s, ms[k])
    decreases |s| - i
  {
    if i < |s| {
      var m := MatchAt(s, i);
      MatchesUnfold(s, i);
      if m == 0 {
        MatchesAreMatches(s, i + 1);
      } else {
        MatchesAreMatches(s, i + m);
        MatchAtIsMatch(s, i);
        var rest := Matches(s, i + m);
        var ms := Matches(s, i);
        forall k | 0 <= k < |ms|
          ensures i <= ms[k].index && IsMatchOf(s, ms[k])
        {
          if k > 0 {
            assert ms[k] == rest[k - 1];
          }
        }
      }
    }
  }

  /** The matches come in source order and do not overlap. */
  lemma {:induction false} MatchesOrdered(s: string, i: nat)
    requires i <= |s|
    ensures var ms := Matches(s, i);
      forall k :: 0 <= k < |ms| - 1 ==> ms[k].index + |ms[k].value| <= ms[k + 1].index
    decreases |s| - i
  {
    if i < |s| {
      var m := MatchAt(s, i);
      MatchesUnfold(s, i);
      if m == 0 {
        MatchesOrdered(s, i + 1);
      } else {
        MatchesOrdered(s, i + m);
        MatchesAreMatches(s, i + m);
        var rest := Matches(s, i + m);
        var ms := Matches(s, i);
        forall k | 0 <= k < |ms| - 1
          ensures ms[k].index + |ms[k].value| <= ms[k + 1].index
        {
          assert ms[k + 1] == rest[k];
          if k > 0 {
            assert ms[k] == rest[k - 1];
          }
        }
      }
    }
  }

  /** Only the first character of a match can be upper-case. */
  lemma NoUpperInsideMatch(s: string, i: nat)
    requires i < |s|
    ensures forall p :: i < p < i + MatchAt(s, i) ==> !IsUpper(s[p])
  {
    var m := MatchAt(s, i);
    if m > 0 {
      MatchAtIsMatch(s, i);
      var v := s[i..i + m];
      forall p | i < p < i + m
        ensures !IsUpper(s[p])
      {
        assert s[p] == v[p - i];
      }
    }
  }

  /** An upper-case letter always starts a match. */
  lemma {:induction false} UpperStartsMatch(s: string, i: nat, j: nat)
    requires i <= j < |s| && IsUpper(s[j])
    ensures exists k :: 0 <= k < |Matches(s, i)| && Matches(s, i)[k].index == j
    decreases |s| - i
  {
    var m := MatchAt(s, i);
    MatchesUnfold(s, i);
    var ms := Matches(s, i);
    if j == i {
      assert ms[0].index == j;
    } else if m == 0 {
      UpperStartsMatch(s, i + 1, j);
    } else {
      NoUpperInsideMatch(s, i);
      var rest := Matches(s, i + m);
      UpperStartsMatch(s, i + m, j);
      var k :| 0 <= k < |rest| && rest[k].index == j;
      assert ms[k + 1] == rest[k];
    }
  }

  /** The letters and digits of `s`, in order. */
  function WordChars(s: string): (w: string)
    ensures |w| <= |s|
  {
    if s == [] then [] else (if IsWordChar(s[0]) then [s[0]] else []) + WordChars(s[1..])
  }

  lemma {:induction false} WordCharsAppend(a: string, b: string)
    ensures WordChars(a + b) == WordChars(a) + WordChars(b)
    decreases |a|
  {
    if a == [] {
      assert a + b == b;
    } else {
      var h := if IsWordChar(a[0]) then [a[0]] else [];
      assert (a + b)[1..] == a[1..] + b;
      assert WordChars(a + b) == h + WordChars(a[1..] + b);
      assert WordChars(a) == h + WordChars(a[1..]);
      WordCharsAppend(a[1..], b);
      assert h + (WordChars(a[1..]) + WordChars(b)) == (h + WordChars(a[1..])) + WordChars(b);
    }
  }

  lemma {:induction false} WordCharsOfWord(t: string)
    requires forall j :: 0 <= j < |t| ==> IsWordChar(t[j])
    ensures WordChars(t) == t
    decreases |t|
  {
    if t != [] {
      WordCharsOfWord(t[1..]);
      assert t == [t[0]] + t[1..];
    }
  }

  function Concat(ts: seq<string>): string
  {
    if ts == [] then [] else ts[0] + Concat(ts[1..])
  }

  lemma SuffixSplits(s: string, i: nat, j: nat)
    requires i <= j <= |s|
    ensures s[i..] == s[i..j] + s[j..]
  {
  }

  lemma ValuesCons(mt: Match, rest: seq<Match>)
    ensures Values([mt] + rest) == [mt.value] + Values(rest)
  {
    assert ([mt] + rest)[1..] == rest;
  }

  /** A match consists of letters and digits only. */
  lemma MatchIsWord(s: string, i: nat)
    requires i < |s|
    ensures WordChars(s[i..i + MatchAt(s, i)]) == s[i..i + MatchAt(s, i)]
  {
    if MatchAt(s, i) > 0 {
      MatchAtIsMatch(s, i);
    }
    WordCharsOfWord(s[i..i + MatchAt(s, i)]);
  }

  /** A character that is neither a letter nor a digit drops out. */
  lemma SkipsNonWord(c: char, tail: string)
    requires !IsWordChar(c)
    ensures WordChars([c] + tail) == WordChars(tail)
  {
    assert ([c] + tail)[1..] == tail;
  }

  /** A word followed by the rest keeps the word and the rest's letters and digits. */
  lemma KeepsWord(t: string, tail: string, ws: seq<string>, rest: seq<string>)
    requires WordChars(t) == t && Concat(rest) == WordChars(tail) && ws == [t] + rest
    ensures Concat(ws) == WordChars(t + tail)
  {
    WordCharsAppend(t, tail);
    assert ws[1..] == rest;
  }

  /** The matches, put together, are the source with every other character removed. */
  lemma {:induction false} MatchesCoverWordChars(s: string, i: nat)
    requires i <= |s|
    ensures Concat(Values(Matches(s, i))) == WordChars(s[i..])
    decreases |s| - i
  {
    if i < |s| {
      var m := MatchAt(s, i);
      if m == 0 {
        assert Matches(s, i) == Matches(s, i + 1) by {
          MatchesUnfold(s, i);
        }
        MatchesCoverWordChars(s, i + 1);
        assert s[i..] == [s[i]] + s[i + 1..];
        SkipsNonWord(s[i], s[i + 1..]);
      } else {
        var t := s[i..i + m];
        var rest := Matches(s, i + m);
        assert Values(Matches(s, i)) == [t] + Values(rest) by {
          MatchesUnfold(s, i);
          ValuesCons(Match(i, t), rest);
        }
        assert s[i..] == t + s[i + m..] by {
          SuffixSplits(s, i, i + m);
        }
        assert WordChars(t) == t by {
          MatchIsWord(s, i);
        }
        MatchesCoverWordChars(s, i + m);
        KeepsWord(t, s[i + m..], Values(Matches(s, i)), Values(rest));
      }
    }
  }

  /** The words of SplitCamelCase put together are the source's letters and digits. */
  lemma SplitCamelCaseCoversWordChars(source: string)
    ensures Concat(SplitCamelCase(source)) == WordChars(source)
  {
    MatchesCoverWordChars(source, 0);
    assert source[0..] == source;
  }

  /** The autofill's pair of search words for a joint: its first two words, when it has two. */
  function JointWords(jointName: string): (r: Option<(string, string)>)
    ensures r.Some? <==> |SplitCamelCase(jointName)| > 1
    ensures r.Some? ==> r.value == (SplitCamelCase(jointName)[0], SplitCamelCase(jointName)[1])
  {
    var split := SplitCamelCase(jointName);
    if |split| > 1 then Some((split[0], split[1])) else None
  }

  /** Where the autofill looks for a joint's transform: the hand's first child, or a name containing two words. */
  datatype JointTarget = FirstChild | Containing(a: string, b: string)

  /** The loop over the joint enumeration: each joint of two or more words, with its search words. */
  function JointSearches(jointNames: seq<string>): (r: seq<(string, JointTarget)>)
    ensures |r| <= |jointNames|
    ensures forall k :: 0 <= k < |r| ==> r[k].1.Containing?
  {
    if jointNames == [] then []
    else
      var w := JointWords(jointNames[0]);
      (if w.Some? then [(jointNames[0], Containing(w.value.0, w.value.1))] else []) + JointSearches(jointNames[1..])
  }

  /** The autofill's pairs: the wrist on the first child, then the loop's pairs in enumeration order. */
  function AutofillJoints(jointNames: seq<string>): (r: seq<(string, JointTarget)>)
    ensures 1 <= |r| <= |jointNames| + 1
    ensures r[0] == ("Wrist", FirstChild)
    ensures forall k :: 1 <= k < |r| ==> r[k].1.Containing?
  {
    [("Wrist", FirstChild)] + JointSearches(jointNames)
  }

  /** The loop pairs a joint exactly when its name splits into at least two words, and then with its first two. */
  lemma {:induction false} JointSearchesMembers(jointNames: seq<string>, name: string, a: string, b: string)
    ensures (name, Containing(a, b)) in JointSearches(jointNames) <==>
      name in jointNames && |SplitCamelCase(name)| > 1 &&
      a == SplitCamelCase(name)[0] && b == SplitCamelCase(name)[1]
    decreases |jointNames|
  {
    if jointNames != [] {
      JointSearchesMembers(jointNames[1..], name, a, b);
      assert jointNames == [jointNames[0]] + jointNames[1..];
    }
  }

  /**
   * A pair is in the autofill's result exactly when it is the wrist on the first child, or a
   * joint of at least two words searched for by its first two.
   */
  lemma AutofillJointsMembers(jointNames: seq<string>, name: string, t: JointTarget)
    ensures (name, t) in AutofillJoints(jointNames) <==>
      || (name == "Wrist" && t == FirstChild)
      || (t.Containing? && name in jointNames && |SplitCamelCase(name)| > 1 &&
          t.a == SplitCamelCase(name)[0] && t.b == SplitCamelCase(name)[1])
  {
    if t.Containing? {
      JointSearchesMembers(jointNames, name, t.a, t.b);
    }
  }
}
