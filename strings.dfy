/** The few Python `str` operations the handler relies on: `split(' ')` and its inverse
    `' '.join`, ASCII `upper`/`lower`, and substring search (`sub in s`). */
module Strings {

  /** Python's `s.split(sep)` with an explicit one-character separator: every occurrence
      of `sep` ends a piece, so adjacent separators give empty pieces and the result is
      never empty (`"".split(' ') == [""]`). */
  function Split(s: string, sep: char): (parts: seq<string>)
    ensures |parts| >= 1
    ensures forall k :: 0 <= k < |parts| ==> sep !in parts[k]
    decreases |s|
  {
    if |s| == 0 then [""]
    else
      var rest := Split(s[1..], sep);
      if s[0] == sep then [""] + rest
      else [[s[0]] + rest[0]] + rest[1..]
  }

  /** Python's `sep.join(parts)`. */
  function Join(parts: seq<string>, sep: char): (s: string)
    ensures |parts| == 1 ==> s == parts[0]
  {
    if |parts| == 0 then ""
    else if |parts| == 1 then parts[0]
    else parts[0] + [sep] + Join(parts[1..], sep)
  }

  /** Joining the pieces of a split with the same separator gives back the string. */
  lemma {:induction false} JoinSplit(s: string, sep: char)
    ensures Join(Split(s, sep), sep) == s
    decreases |s|
  {
    if |s| > 0 {
      var rest := Split(s[1..], sep);
      JoinSplit(s[1..], sep);
      if s[0] == sep {
        assert Split(s, sep) == [""] + rest;
        assert s == [s[0]] + s[1..];
      } else {
        var head := [s[0]] + rest[0];
        assert Split(s, sep) == [head] + rest[1..];
        if |rest| == 1 {
          assert s == [s[0]] + s[1..];
        } else {
          assert ([head] + rest[1..])[1..] == rest[1..];
          assert rest == [rest[0]] + rest[1..];
          assert Join(rest, sep) == rest[0] + [sep] + Join(rest[1..], sep);
          assert s == [s[0]] + s[1..];
        }
      }
    }
  }

  /** Conversely, separator-free pieces survive a join followed by a split. */
  lemma {:induction false} SplitJoin(parts: seq<string>, sep: char)
    requires |parts| >= 1
    requires forall k :: 0 <= k < |parts| ==> sep !in parts[k]
    ensures Split(Join(parts, sep), sep) == parts
    decreases |parts|, |parts[0]|
  {
    if |parts[0]| == 0 {
      if |parts| > 1 {
        SplitJoin(parts[1..], sep);
        var j := Join(parts, sep);
        assert j == [sep] + Join(parts[1..], sep);
        assert j[1..] == Join(parts[1..], sep);
        assert parts == [""] + parts[1..];
      }
    } else {
      var c := parts[0][0];
      var shorter := [parts[0][1..]] + parts[1..];
      assert sep !in shorter[0] by { assert forall x :: x in parts[0][1..] ==> x in parts[0]; }
      SplitJoin(shorter, sep);
      JoinCons(c, shorter, sep);
      assert [c] + shorter[0] == parts[0];
      assert [[c] + shorter[0]] + shorter[1..] == parts;
    }
  }

  /** Prepending a character to the first piece prepends it to the joined string. */
  lemma JoinCons(c: char, parts: seq<string>, sep: char)
    requires |parts| >= 1
    ensures Join([[c] + parts[0]] + parts[1..], sep) == [c] + Join(parts, sep)
  {
    var q := [[c] + parts[0]] + parts[1..];
    assert q[1..] == parts[1..];
  }

  function UpperChar(c: char): char
  {
    if 'a' <= c <= 'z' then (c as int - 32) as char else c
  }

  function LowerChar(c: char): char
  {
    if 'A' <= c <= 'Z' then (c as int + 32) as char else c
  }

  /** `s.upper()` on the ASCII letters. */
  function Upper(s: string): (u: string)
    ensures |u| == |s|
  {
    seq(|s|, i requires 0 <= i < |s| => UpperChar(s[i]))
  }

  /** `s.lower()` on the ASCII letters. */
  function Lower(s: string): (l: string)
    ensures |l| == |s|
  {
    seq(|s|, i requires 0 <= i < |s| => LowerChar(s[i]))
  }

  /** Python's `sub in s`. */
  predicate Contains(s: string, sub: string)
    decreases |s|
  {
    sub <= s || (|s| > 0 && Contains(s[1..], sub))
  }

  /** `sub` occurs in `s` starting at offset `k`. */
  predicate OccursAt(s: string, sub: string, k: nat)
  {
    k + |sub| <= |s| && s[k..k + |sub|] == sub
  }

  /** `Contains` holds exactly when `sub` occurs at some offset of `s`. */
  lemma {:induction false} ContainsAt(s: string, sub: string)
    ensures Contains(s, sub) <==> exists k: nat :: OccursAt(s, sub, k)
    decreases |s|
  {
    if exists k: nat :: OccursAt(s, sub, k) {
      var k: nat :| OccursAt(s, sub, k);
      if k == 0 {
        assert sub <= s;
      } else {
        assert OccursAt(s[1..], sub, k - 1) by { assert s[1..][k - 1..k - 1 + |sub|] == s[k..k + |sub|]; }
        ContainsAt(s[1..], sub);
      }
    }
    if Contains(s, sub) {
      if sub <= s {
        assert OccursAt(s, sub, 0);
      } else {
        ContainsAt(s[1..], sub);
        var k: nat :| OccursAt(s[1..], sub, k);
        assert s[1..][k..k + |sub|] == s[k + 1..k + 1 + |sub|];
        assert OccursAt(s, sub, k + 1);
      }
    }
  }
}
