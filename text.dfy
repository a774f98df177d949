/**
 * The JavaScript string operations the application uses, over `seq<char>`:
 * ASCII case folding (`toLowerCase` / `toUpperCase`), `startsWith`,
 * `endsWith`, `includes`, `substr` and `split` on one separator character.
 */
module Text {

  predicate IsUpperAscii(c: char) { 'A' <= c <= 'Z' }
  predicate IsLowerAscii(c: char) { 'a' <= c <= 'z' }

  function LowerChar(c: char): (r: char)
    ensures !IsUpperAscii(r)
    ensures IsUpperAscii(c) ==> r as int == c as int + 32
    ensures !IsUpperAscii(c) ==> r == c
  {
    if IsUpperAscii(c) then (c as int + 32) as char else c
  }

  function UpperChar(c: char): (r: char)
    ensures !IsLowerAscii(r)
    ensures IsLowerAscii(c) ==> r as int == c as int - 32
    ensures !IsLowerAscii(c) ==> r == c
  {
    if IsLowerAscii(c) then (c as int - 32) as char else c
  }

  /** `toLowerCase`, restricted to ASCII letters. */
  function Lower(s: string): (r: string)
    ensures |r| == |s|
    ensures forall i :: 0 <= i < |s| ==> r[i] == LowerChar(s[i])
  {
    seq(|s|, i requires 0 <= i < |s| => LowerChar(s[i]))
  }

  /** `toUpperCase`, restricted to ASCII letters. */
  function Upper(s: string): (r: string)
    ensures |r| == |s|
    ensures forall i :: 0 <= i < |s| ==> r[i] == UpperChar(s[i])
  {
    seq(|s|, i requires 0 <= i < |s| => UpperChar(s[i]))
  }

  /** `a.toLowerCase() === b.toLowerCase()`. */
  predicate EqualsIgnoreCase(a: string, b: string) {
    Lower(a) == Lower(b)
  }

  /**
   * Case-insensitive equality position by position: the strings have the same
   * length and agree at every index once each character is folded.
   */
  lemma EqualsIgnoreCasePointwise(a: string, b: string)
    ensures EqualsIgnoreCase(a, b) <==> |a| == |b| && forall i :: 0 <= i < |a| ==> LowerChar(a[i]) == LowerChar(b[i])
  {
    if |a| == |b| && forall i :: 0 <= i < |a| ==> LowerChar(a[i]) == LowerChar(b[i]) {
      assert forall i :: 0 <= i < |a| ==> Lower(a)[i] == Lower(b)[i];
    }
  }

  lemma LowerIdempotent(s: string)
    ensures Lower(Lower(s)) == Lower(s)
    ensures forall i :: 0 <= i < |s| ==> !IsUpperAscii(Lower(s)[i])
  {
  }

  /** Case-insensitive equality is an equivalence, and it only relates strings of equal length. */
  lemma EqualsIgnoreCaseIsEquivalence(a: string, b: string, c: string)
    ensures EqualsIgnoreCase(a, a)
    ensures EqualsIgnoreCase(a, b) ==> EqualsIgnoreCase(b, a)
    ensures EqualsIgnoreCase(a, b) && EqualsIgnoreCase(b, c) ==> EqualsIgnoreCase(a, c)
    ensures EqualsIgnoreCase(a, b) ==> |a| == |b|
  {
    if EqualsIgnoreCase(a, b) {
      assert |Lower(a)| == |Lower(b)|;
    }
  }

  /** `s.startsWith(prefix)`: the first `|prefix|` characters of `s` spell `prefix`. */
  predicate StartsWith(s: string, prefix: string): (b: bool)
    ensures b <==> |prefix| <= |s| && forall i :: 0 <= i < |prefix| ==> s[i] == prefix[i]
  {
    |prefix| <= |s| && s[..|prefix|] == prefix
  }

  /** `s.endsWith(suffix)`: the last `|suffix|` characters of `s` spell `suffix`. */
  predicate EndsWith(s: string, suffix: string): (b: bool)
    ensures b <==> |suffix| <= |s| && forall i :: 0 <= i < |suffix| ==> s[|s| - |suffix| + i] == suffix[i]
  {
    |suffix| <= |s| && s[|s| - |suffix|..] == suffix
  }

  /** `needle` occurs in `s` starting at index `i`. */
  predicate OccursAt(s: string, needle: string, i: int) {
    0 <= i && i + |needle| <= |s| && s[i..i + |needle|] == needle
  }

  /** Dropping the first character shifts every occurrence one place to the left. */
  lemma ShiftedOccurrences(s: string, needle: string)
    requires |s| > 0
    ensures forall i :: 0 <= i ==> (OccursAt(s[1..], needle, i) <==> OccursAt(s, needle, i + 1))
  {
    forall i | 0 <= i ensures OccursAt(s[1..], needle, i) <==> OccursAt(s, needle, i + 1) {
      if i + |needle| <= |s| - 1 {
        assert s[1..][i..i + |needle|] == s[i + 1..i + 1 + |needle|];
      }
    }
  }

  /** `s.includes(needle)`: some window of `s` spells `needle`. */
  function Contains(s: string, needle: string): (r: bool)
    ensures r <==> exists i :: OccursAt(s, needle, i)
  {
    if StartsWith(s, needle) then
      assert OccursAt(s, needle, 0);
      true
    else if s == [] then false
    else
      var r := Contains(s[1..], needle);
      ShiftedOccurrences(s, needle);
      assert !OccursAt(s, needle, 0);
      assert r ==> exists i :: OccursAt(s, needle, i) by {
        if r {
          var k :| OccursAt(s[1..], needle, k);
          assert OccursAt(s, needle, k + 1);
        }
      }
      assert (exists i :: OccursAt(s, needle, i)) ==> r by {
        if exists i :: OccursAt(s, needle, i) {
          var k :| OccursAt(s, needle, k);
          assert k != 0;
          assert OccursAt(s[1..], needle, k - 1);
        }
      }
      r
  }

  /** Every string includes the empty string: an empty search term matches everything. */
  lemma ContainsEmpty(s: string)
    ensures Contains(s, "")
  {
    assert OccursAt(s, "", 0);
  }

  /** `s.substr(start, len)` for a non-negative `start` and `len`. */
  function Substr(s: string, start: nat, len: nat): (r: string)
    ensures |r| <= len
    ensures start + len <= |s| ==> r == s[start..start + len]
    ensures |s| <= start ==> r == ""
    ensures start < |s| < start + len ==> r == s[start..]
    ensures forall i :: 0 <= i < |r| ==> start + i < |s| && r[i] == s[start + i]
  {
    if |s| <= start then ""
    else if start + len <= |s| then s[start..start + len]
    else s[start..]
  }

  /** Concatenates `fields`, putting `sep` between neighbours: `fields.join(sep)`. */
  function Join(fields: seq<string>, sep: char): string
    requires |fields| >= 1
  {
    if |fields| == 1 then fields[0] else fields[0] + [sep] + Join(fields[1..], sep)
  }

  /** `s.split(sep)` for a one-character separator (there is always at least one field). */
  function Split(s: string, sep: char): (fields: seq<string>)
    ensures |fields| >= 1
    ensures forall k :: 0 <= k < |fields| ==> sep !in fields[k]
  {
    if s == [] then [[]]
    else
      var rest := Split(s[1..], sep);
      if s[0] == sep then [[]] + rest
      else [[s[0]] + rest[0]] + rest[1..]
  }

  /** Joining the fields of a split gives back the string. */
  lemma {:induction false} JoinSplit(s: string, sep: char)
    ensures Join(Split(s, sep), sep) == s
  {
    if s != [] {
      JoinSplit(s[1..], sep);
      var rest := Split(s[1..], sep);
      if s[0] == sep {
        assert Split(s, sep)[1..] == rest;
      } else {
        var fields := Split(s, sep);
        assert fields[0] == [s[0]] + rest[0];
        if |rest| > 1 {
          assert fields[1..] == rest[1..];
        }
      }
    }
  }

  /** Splitting a join of separator-free fields gives back the fields. */
  lemma {:induction false} SplitJoin(fields: seq<string>, sep: char)
    requires |fields| >= 1
    requires forall k :: 0 <= k < |fields| ==> sep !in fields[k]
    ensures Split(Join(fields, sep), sep) == fields
  {
    if |fields| == 1 {
      SplitSeparatorFree(fields[0], sep);
    } else {
      SplitJoin(fields[1..], sep);
      var tail := Join(fields[1..], sep);
      SplitPrefix(fields[0], sep, tail);
    }
  }

  lemma {:induction false} SplitSeparatorFree(s: string, sep: char)
    requires sep !in s
    ensures Split(s, sep) == [s]
  {
    if s != [] {
      assert s[0] in s;
      assert forall c :: c in s[1..] ==> c in s;
      SplitSeparatorFree(s[1..], sep);
      assert [s[0]] + s[1..] == s;
    }
  }

  lemma {:induction false} SplitPrefix(head: string, sep: char, tail: string)
    requires sep !in head
    ensures Split(head + [sep] + tail, sep) == [head] + Split(tail, sep)
  {
    if head == [] {
      assert head + [sep] + tail == [sep] + tail;
      assert ([sep] + tail)[1..] == tail;
    } else {
      var s := head + [sep] + tail;
      assert s[0] == head[0];
      assert s[1..] == head[1..] + [sep] + tail;
      SplitPrefix(head[1..], sep, tail);
      assert [head[0]] + head[1..] == head;
    }
  }

  /** The first occurrence of `c` in `s`. */
  lemma {:induction false} FirstOccurrence(s: string, c: char) returns (i: nat)
    requires c in s
    ensures i < |s| && s[i] == c && c !in s[..i]
  {
    if s[0] == c {
      i := 0;
    } else {
      var k :| 0 <= k < |s| && s[k] == c;
      assert s[1..][k - 1] == c;
      var j := FirstOccurrence(s[1..], c);
      i := j + 1;
      assert s[..i] == [s[0]] + s[1..][..j];
    }
  }

  /** Splitting at the first separator: the first field is everything before it. */
  lemma SplitAtFirst(s: string, sep: char, i: nat)
    requires i < |s| && s[i] == sep && sep !in s[..i]
    ensures Split(s, sep) == [s[..i]] + Split(s[i + 1..], sep)
  {
    assert s == s[..i] + [sep] + s[i + 1..];
    SplitPrefix(s[..i], sep, s[i + 1..]);
  }

  /** The first field is the single character `c` exactly when `s` starts with `c` followed by the end or a separator. */
  lemma SplitHeadIsChar(s: string, sep: char, c: char)
    requires c != sep
    ensures Split(s, sep)[0] == [c] <==> |s| >= 1 && s[0] == c && (|s| == 1 || s[1] == sep)
  {
    if s != [] && s[0] != sep {
      var rest := Split(s[1..], sep);
      assert Split(s, sep)[0] == [s[0]] + rest[0];
      if |s| >= 2 && s[1] != sep {
        assert s[1..][0] == s[1] && s[1..][1..] == s[2..];
        assert rest[0] == [s[1]] + Split(s[2..], sep)[0];
        assert |Split(s, sep)[0]| >= 2;
      } else {
        assert rest[0] == [];
        assert Split(s, sep)[0] == [s[0]];
        assert [s[0]] == [c] ==> [s[0]][0] == [c][0];
      }
    }
  }
}
