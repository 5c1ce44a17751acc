/**
 * ASCII string operations shared by the Python proxy and the two browser
 * clients: substring search, ASCII lower-casing, whitespace trimming in the
 * Python and the JavaScript sense, joining, and decimal rendering of integers.
 */
module Text {

  /** `sub` occurs in `s` starting at index `i`. */
  predicate OccursAt(s: string, sub: string, i: nat)
  {
    i + |sub| <= |s| && s[i..i + |sub|] == sub
  }

  /** Python's `sub in s`, JavaScript's `s.includes(sub)`. */
  predicate Contains(s: string, sub: string)
  {
    exists i: nat :: i <= |s| && OccursAt(s, sub, i)
  }

  /** Python's `s.startswith(p)`, JavaScript's `s.startsWith(p)`. */
  predicate StartsWith(s: string, p: string)
  {
    |p| <= |s| && s[..|p|] == p
  }

  lemma StartsWithAppend(a: string, b: string)
    ensures StartsWith(a + b, a)
  {
    assert (a + b)[..|a|] == a;
  }

  function LowerChar(c: char): char
  {
    if 'A' <= c <= 'Z' then (c as int + 32) as char else c
  }

  /** `s.lower()` restricted to ASCII: only `A`..`Z` change. */
  function Lower(s: string): (r: string)
    ensures |r| == |s|
    ensures forall i :: 0 <= i < |s| ==> r[i] == LowerChar(s[i])
  {
    seq(|s|, i requires 0 <= i < |s| => LowerChar(s[i]))
  }

  /** Lower-casing works character by character, so it distributes over concatenation. */
  lemma LowerAppend(a: string, b: string)
    ensures Lower(a + b) == Lower(a) + Lower(b)
  {
    assert forall i :: 0 <= i < |a + b| ==> Lower(a + b)[i] == (Lower(a) + Lower(b))[i];
  }

  /** Whose notion of whitespace a trim or a `\s` uses. */
  datatype Lang = Python | JavaScript

  /**
   * ASCII whitespace: tab, line feed, vertical tab, form feed, carriage
   * return and space for both languages; Python's `str.isspace` (which its
   * `re` module's `\s` and `str.strip` follow) also counts the four
   * separators U+001C..U+001F.
   */
  predicate IsSpace(lang: Lang, c: char)
  {
    c == ' ' || 9 <= c as int <= 13 || (lang == Python && 0x1C <= c as int <= 0x1F)
  }

  /** Drops leading whitespace. */
  function TrimStart(lang: Lang, s: string): (r: string)
    ensures |r| <= |s| && r == s[|s| - |r|..]
    ensures r != [] ==> !IsSpace(lang, r[0])
    ensures forall i :: 0 <= i < |s| - |r| ==> IsSpace(lang, s[i])
    decreases |s|
  {
    if s != [] && IsSpace(lang, s[0]) then TrimStart(lang, s[1..]) else s
  }

  /** Drops trailing whitespace. */
  function TrimEnd(lang: Lang, s: string): (r: string)
    ensures |r| <= |s| && r == s[..|r|]
    ensures r != [] ==> !IsSpace(lang, r[|r| - 1])
    ensures forall i :: |r| <= i < |s| ==> IsSpace(lang, s[i])
    decreases |s|
  {
    if s != [] && IsSpace(lang, s[|s| - 1]) then TrimEnd(lang, s[..|s| - 1]) else s
  }

  /**
   * Python's `s.strip()` and JavaScript's `s.trim()`: the longest substring
   * that neither starts nor ends with whitespace, and empty exactly when `s`
   * is all whitespace.
   */
  function Trim(lang: Lang, s: string): (r: string)
    ensures Contains(s, r)
    ensures r != [] ==> !IsSpace(lang, r[0]) && !IsSpace(lang, r[|r| - 1])
  {
    var t := TrimStart(lang, s);
    var r := TrimEnd(lang, t);
    assert OccursAt(s, r, |s| - |t|);
    r
  }

  /** Trimming leaves nothing exactly when the input is all whitespace. */
  lemma TrimEmptyIff(lang: Lang, s: string)
    ensures Trim(lang, s) == [] <==> forall i :: 0 <= i < |s| ==> IsSpace(lang, s[i])
  {
    var t := TrimStart(lang, s);
    if Trim(lang, s) == [] {
      assert t == [];
    }
  }

  /** A text that neither starts nor ends with whitespace is left as it is. */
  lemma TrimKeeps(lang: Lang, s: string)
    requires s != [] ==> !IsSpace(lang, s[0]) && !IsSpace(lang, s[|s| - 1])
    ensures Trim(lang, s) == s
  {
    assert TrimStart(lang, s) == s;
    assert TrimEnd(lang, s) == s;
  }

  /** Trimming twice is trimming once. */
  lemma TrimIdempotent(lang: Lang, s: string)
    ensures Trim(lang, Trim(lang, s)) == Trim(lang, s)
  {
    TrimKeeps(lang, Trim(lang, s));
  }

  /** Python's `sep.join(parts)` and JavaScript's `parts.join(sep)`. */
  function Join(parts: seq<string>, sep: string): string
    decreases |parts|
  {
    if |parts| == 0 then ""
    else if |parts| == 1 then parts[0]
    else parts[0] + sep + Join(parts[1..], sep)
  }

  /** `a[0], b[0], a[1], b[1], …`: the elements of two sequences taken in turn. */
  function Interleave<T>(a: seq<T>, b: seq<T>): seq<T>
    requires |a| == |b|
    decreases |a|
  {
    if a == [] then [] else [a[0], b[0]] + Interleave(a[1..], b[1..])
  }

  lemma {:induction false} InterleaveAt<T>(a: seq<T>, b: seq<T>)
    requires |a| == |b|
    ensures |Interleave(a, b)| == 2 * |a|
    ensures forall k :: 0 <= k < |a| ==> Interleave(a, b)[2 * k] == a[k] && Interleave(a, b)[2 * k + 1] == b[k]
    decreases |a|
  {
    if a != [] {
      InterleaveAt(a[1..], b[1..]);
      var rest := Interleave(a[1..], b[1..]);
      assert Interleave(a, b) == [a[0], b[0]] + rest;
      forall k | 1 <= k < |a|
        ensures Interleave(a, b)[2 * k] == a[k] && Interleave(a, b)[2 * k + 1] == b[k]
      {
        assert Interleave(a, b)[2 * k] == rest[2 * (k - 1)];
        assert Interleave(a, b)[2 * k + 1] == rest[2 * (k - 1) + 1];
      }
    }
  }

  /** A character absent from every element of `a` and `b` is absent from every element taken in turn. */
  lemma {:induction false} InterleaveAvoids(a: seq<string>, b: seq<string>, c: char)
    requires |a| == |b|
    requires forall i :: 0 <= i < |a| ==> c !in a[i]
    requires forall i :: 0 <= i < |b| ==> c !in b[i]
    ensures forall i :: 0 <= i < |Interleave(a, b)| ==> c !in Interleave(a, b)[i]
    decreases |a|
  {
    if a != [] {
      InterleaveAvoids(a[1..], b[1..], c);
      var rest := Interleave(a[1..], b[1..]);
      assert Interleave(a, b) == [a[0], b[0]] + rest;
      forall i | 2 <= i < |Interleave(a, b)| ensures c !in Interleave(a, b)[i] {
        assert Interleave(a, b)[i] == rest[i - 2];
      }
    }
  }

  /** The pieces `a[i] + sep + b[i]`, one per index. */
  function Pairs(a: seq<string>, b: seq<string>, sep: string): (r: seq<string>)
    requires |a| == |b|
    ensures |r| == |a|
  {
    seq(|a|, i requires 0 <= i < |a| => a[i] + sep + b[i])
  }

  /**
   * Joining pieces that are each two parts around the separator is joining
   * all the parts in turn.
   */
  lemma {:induction false} JoinPairs(a: seq<string>, b: seq<string>, sep: string)
    requires |a| == |b| > 0
    ensures Join(Pairs(a, b, sep), sep) == Join(Interleave(a, b), sep)
    decreases |a|
  {
    var blocks := Pairs(a, b, sep);
    var rest := Interleave(a[1..], b[1..]);
    var all := [a[0], b[0]] + rest;
    assert Interleave(a, b) == all;
    assert all[1..] == [b[0]] + rest;
    if |a| == 1 {
      assert rest == [];
      assert Join(blocks, sep) == a[0] + sep + b[0];
      assert Join([b[0]], sep) == b[0];
    } else {
      JoinPairs(a[1..], b[1..], sep);
      assert blocks[1..] == Pairs(a[1..], b[1..], sep);
      InterleaveAt(a[1..], b[1..]);
      assert ([b[0]] + rest)[1..] == rest;
      assert Join(all, sep) == a[0] + sep + (b[0] + sep + Join(rest, sep));
    }
  }

  /** All the strings of `parts`, one after the other. */
  function Concat(parts: seq<string>): string
    decreases |parts|
  {
    if parts == [] then "" else parts[0] + Concat(parts[1..])
  }

  lemma ConcatAppend(a: seq<string>, b: seq<string>)
    ensures Concat(a + b) == Concat(a) + Concat(b)
    decreases |a|
  {
    if a != [] {
      assert (a + b)[0] == a[0] && (a + b)[1..] == a[1..] + b;
      ConcatAppend(a[1..], b);
      assert Concat(a + b) == a[0] + (Concat(a[1..]) + Concat(b));
    } else {
      assert a + b == b;
    }
  }

  lemma ConcatSingle(s: string)
    ensures Concat([s]) == s
  {
    assert [s][1..] == [];
  }

  /** Extending text `s` by the concatenation of more pieces, some at a time. */
  lemma ConcatExtend(s: string, pieces: seq<string>, p: seq<string>)
    ensures s + Concat(pieces + p) == s + Concat(pieces) + Concat(p)
    ensures |p| == 1 ==> Concat(p) == p[0]
  {
    ConcatAppend(pieces, p);
    assert s + (Concat(pieces) + Concat(p)) == s + Concat(pieces) + Concat(p);
    if |p| == 1 {
      assert p == [p[0]];
      ConcatSingle(p[0]);
    }
  }

  /** Number of occurrences of `c` in `s`. */
  function Count(s: string, c: char): nat
    decreases |s|
  {
    if s == [] then 0 else (if s[0] == c then 1 else 0) + Count(s[1..], c)
  }

  lemma {:induction false} CountAppend(a: string, b: string, c: char)
    ensures Count(a + b, c) == Count(a, c) + Count(b, c)
    decreases |a|
  {
    if a != [] {
      assert (a + b)[0] == a[0] && (a + b)[1..] == a[1..] + b;
      CountAppend(a[1..], b, c);
    } else {
      assert a + b == b;
    }
  }

  lemma {:induction false} CountAbsent(s: string, c: char)
    requires c !in s
    ensures Count(s, c) == 0
    decreases |s|
  {
    if s != [] {
      CountAbsent(s[1..], c);
    }
  }

  /**
   * Joining `n` pieces none of which contains `c` with a one-character
   * separator `c` puts exactly `n - 1` copies of `c` in the result.
   */
  lemma {:induction false} CountJoin(parts: seq<string>, c: char)
    requires |parts| > 0
    requires forall i :: 0 <= i < |parts| ==> Count(parts[i], c) == 1
    ensures Count(Join(parts, [c]), c) == 2 * |parts| - 1
    decreases |parts|
  {
    if |parts| > 1 {
      CountJoin(parts[1..], c);
      CountAppend(parts[0] + [c], Join(parts[1..], [c]), c);
      CountAppend(parts[0], [c], c);
    }
  }

  function DigitChar(d: nat): (c: char)
    requires d < 10
    ensures '0' <= c <= '9' && c as int - '0' as int == d
  {
    ('0' as int + d) as char
  }

  /** Decimal digits of `n` without leading zeros: JavaScript's `String(n)`, Python's `str(n)`. */
  function NatToString(n: nat): (r: string)
    ensures |r| >= 1
    ensures forall i :: 0 <= i < |r| ==> '0' <= r[i] <= '9'
    decreases n
  {
    if n < 10 then [DigitChar(n)] else NatToString(n / 10) + [DigitChar(n % 10)]
  }

  /** Decimal rendering of an integer, with a leading `-` when negative. */
  function IntToString(n: int): (r: string)
    ensures |r| >= 1
    ensures forall i :: 0 <= i < |r| ==> r[i] == '-' || '0' <= r[i] <= '9'
  {
    if n < 0 then "-" + NatToString(-n) else NatToString(n)
  }

  /** Reads a string of decimal digits back as a number. */
  function ParseDigits(s: string): nat
    requires forall i :: 0 <= i < |s| ==> '0' <= s[i] <= '9'
    decreases |s|
  {
    if s == [] then 0 else 10 * ParseDigits(s[..|s| - 1]) + (s[|s| - 1] as int - '0' as int)
  }

  /** The decimal rendering is read back as the number it renders. */
  lemma {:induction false} NatToStringRoundTrip(n: nat)
    ensures ParseDigits(NatToString(n)) == n
    decreases n
  {
    if n >= 10 {
      NatToStringRoundTrip(n / 10);
      var s := NatToString(n);
      assert s[..|s| - 1] == NatToString(n / 10);
    }
  }
}
