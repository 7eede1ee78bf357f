/** Python string operations the core relies on, with the semantics CPython gives them:
    `sep.join`, `str.split`, `str.lower` (ASCII letters), `str.rstrip(chars)`, the slice
    `s[:n]` (negative `n` counts from the end) and decimal formatting of an `int` in an f-string. */
module Text {

  /** `sep.join(parts)`. */
  function Join(parts: seq<string>, sep: string): string
  {
    if |parts| == 0 then ""
    else if |parts| == 1 then parts[0]
    else parts[0] + sep + Join(parts[1..], sep)
  }

  /** `s.split(sep)` for a non-empty separator: the occurrences are found left to right
      and do not overlap; there is always at least one piece. */
  function Split(s: string, sep: string): (parts: seq<string>)
    requires |sep| > 0
    ensures |parts| >= 1
    decreases |s|
  {
    if s == [] then [""]
    else if sep <= s then [""] + Split(s[|sep|..], sep)
    else
      var rest := Split(s[1..], sep);
      [[s[0]] + rest[0]] + rest[1..]
  }

  /** Splitting and re-joining with the same separator gives the text back. */
  lemma {:induction false} JoinSplit(s: string, sep: string)
    requires |sep| > 0
    ensures Join(Split(s, sep), sep) == s
    decreases |s|
  {
    if s == [] {
    } else if sep <= s {
      var rest := s[|sep|..];
      JoinSplit(rest, sep);
      JoinAfterEmpty(Split(rest, sep), sep);
      assert s == sep + rest;
    } else {
      JoinSplit(s[1..], sep);
      JoinExtendFirst(s[0], Split(s[1..], sep), sep);
      assert s == [s[0]] + s[1..];
    }
  }

  /** An empty first part contributes only the separator. */
  lemma JoinAfterEmpty(r: seq<string>, sep: string)
    requires |r| > 0
    ensures Join([""] + r, sep) == sep + Join(r, sep)
  {
    assert ([""] + r)[1..] == r;
  }

  /** Extending the first part by a character extends the join by that character. */
  lemma JoinExtendFirst(c: char, r: seq<string>, sep: string)
    requires |r| > 0
    ensures Join([[c] + r[0]] + r[1..], sep) == [c] + Join(r, sep)
  {
    var parts := [[c] + r[0]] + r[1..];
    assert parts[1..] == r[1..];
  }

  /** Appending one more part adds one separator and the part. */
  lemma {:induction false} JoinSnoc(parts: seq<string>, x: string, sep: string)
    requires |parts| > 0
    ensures Join(parts + [x], sep) == Join(parts, sep) + sep + x
    decreases |parts|
  {
    if |parts| == 1 {
      assert (parts + [x])[1..] == [x];
    } else {
      JoinSnoc(parts[1..], x, sep);
      assert (parts + [x])[1..] == parts[1..] + [x];
    }
  }

  /** Joining two non-empty runs of parts puts one separator between their joins. */
  lemma {:induction false} JoinAppend(xs: seq<string>, ys: seq<string>, sep: string)
    requires |xs| > 0 && |ys| > 0
    ensures Join(xs + ys, sep) == Join(xs, sep) + sep + Join(ys, sep)
    decreases |xs|
  {
    if |xs| == 1 {
      assert (xs + ys)[1..] == ys;
    } else {
      JoinAppend(xs[1..], ys, sep);
      assert (xs + ys)[1..] == xs[1..] + ys;
    }
  }

  /** A text without the separator character is split into itself alone. */
  lemma {:induction false} SplitWithoutSeparator(s: string, c: char)
    requires c !in s
    ensures Split(s, [c]) == [s]
    decreases |s|
  {
    if s != [] {
      assert s[0] != c;
      assert !([c] <= s);
      SplitWithoutSeparator(s[1..], c);
      assert [s[0]] + s[1..] == s;
    }
  }

  /** Splitting at the first occurrence of a one-character separator: the text before it is
      the first piece, and the rest is split in turn. */
  lemma {:induction false} SplitAtFirst(a: string, c: char, b: string)
    requires c !in a
    ensures Split(a + [c] + b, [c]) == [a] + Split(b, [c])
    decreases |a|
  {
    var s := a + [c] + b;
    if a == [] {
      assert s == [c] + b;
      assert [c] <= s;
      assert s[1..] == b;
    } else {
      assert s[0] == a[0] != c;
      assert !([c] <= s);
      assert s[1..] == a[1..] + [c] + b;
      SplitAtFirst(a[1..], c, b);
      assert [a[0]] + a[1..] == a;
    }
  }

  /** Whatever precedes the last occurrence of a one-character separator, the text after it
      is the last piece, and there are at least two pieces. */
  lemma {:induction false} SplitLastPiece(a: string, c: char, b: string)
    requires c !in b
    ensures var parts := Split(a + [c] + b, [c]);
      |parts| >= 2 && parts[|parts| - 1] == b
    decreases |a|
  {
    var s := a + [c] + b;
    if a == [] {
      assert s == [c] + b && s[1..] == b;
      assert [c] <= s;
      SplitWithoutSeparator(b, c);
    } else {
      assert s[0] == a[0];
      assert s[1..] == a[1..] + [c] + b;
      SplitLastPiece(a[1..], c, b);
      if a[0] != c {
        assert !([c] <= s);
      }
    }
  }

  /** Joining pieces that avoid a character, with a separator that avoids it, avoids it too. */
  lemma {:induction false} JoinAvoids(parts: seq<string>, sep: string, c: char)
    requires c !in sep
    requires forall k :: 0 <= k < |parts| ==> c !in parts[k]
    ensures c !in Join(parts, sep)
    decreases |parts|
  {
    if |parts| > 1 {
      JoinAvoids(parts[1..], sep, c);
      assert forall k :: 0 <= k < |parts| - 1 ==> parts[1..][k] == parts[k + 1];
      assert c !in parts[0];
    }
  }

  /** When no part contains the separator character, splitting the join gives the parts back. */
  lemma {:induction false} SplitJoin(parts: seq<string>, c: char)
    requires |parts| > 0
    requires forall k :: 0 <= k < |parts| ==> c !in parts[k]
    ensures Split(Join(parts, [c]), [c]) == parts
    decreases |parts|
  {
    if |parts| == 1 {
      SplitWithoutSeparator(parts[0], c);
    } else {
      assert forall k :: 0 <= k < |parts| - 1 ==> parts[1..][k] == parts[k + 1];
      SplitJoin(parts[1..], c);
      assert c !in parts[0];
      SplitAtFirst(parts[0], c, Join(parts[1..], [c]));
      assert [parts[0]] + parts[1..] == parts;
    }
  }

  /** No piece of a split on one character contains that character. */
  lemma {:induction false} SplitPiecesAvoidSeparator(s: string, c: char)
    ensures forall k :: 0 <= k < |Split(s, [c])| ==> c !in Split(s, [c])[k]
    decreases |s|
  {
    if s != [] {
      SplitPiecesAvoidSeparator(s[1..], c);
      if !([c] <= s) {
        var r := Split(s[1..], [c]);
        assert s[0] != c;
        assert c !in r[0];
        assert c !in [s[0]] + r[0];
      }
    }
  }

  /** If every `t` in `s` is immediately followed by `c`, then after splitting on `c`
      a `t` can stand only at the very end of a piece. */
  lemma {:induction false} SplitAfterMarker(s: string, c: char, t: char)
    requires c != t
    requires forall i :: 0 <= i < |s| && s[i] == t ==> i + 1 < |s| && s[i + 1] == c
    ensures forall k, j :: 0 <= k < |Split(s, [c])| && 0 <= j < |Split(s, [c])[k]| - 1 ==>
              Split(s, [c])[k][j] != t
    decreases |s|
  {
    if s != [] {
      var tail := s[1..];
      assert forall i :: 0 <= i < |tail| && tail[i] == t ==> i + 1 < |tail| && tail[i + 1] == c by {
        forall i | 0 <= i < |tail| && tail[i] == t
          ensures i + 1 < |tail| && tail[i + 1] == c
        {
          assert s[i + 1] == t;
        }
      }
      SplitAfterMarker(tail, c, t);
      if !([c] <= s) {
        var r := Split(tail, [c]);
        var p := [s[0]] + r[0];
        if s[0] == t {
          assert tail[0] == c && [c] <= tail;
          assert r == [""] + Split(tail[1..], [c]);
          assert p == [t];
        } else {
          forall j | 0 <= j < |p| - 1 ensures p[j] != t {
            if j > 0 { assert p[j] == r[0][j - 1]; }
          }
        }
        var parts := [p] + r[1..];
        forall k, j | 0 <= k < |parts| && 0 <= j < |parts[k]| - 1 ensures parts[k][j] != t {
          if k > 0 { assert parts[k] == r[k]; }
        }
      }
    }
  }

  /** `c.lower()` for a character; only the ASCII letters A-Z are mapped. */
  function LowerChar(c: char): char
  {
    if 'A' <= c <= 'Z' then (c as int - 'A' as int + 'a' as int) as char else c
  }

  /** `s.lower()`, restricted to ASCII letters. */
  function Lower(s: string): (r: string)
    ensures |r| == |s|
    ensures forall i :: 0 <= i < |s| ==> !('A' <= r[i] <= 'Z')
    ensures forall i :: 0 <= i < |s| && !('A' <= s[i] <= 'Z') ==> r[i] == s[i]
    ensures forall i :: 0 <= i < |s| && 'A' <= s[i] <= 'Z' ==> r[i] as int == s[i] as int + 32
  {
    seq(|s|, i requires 0 <= i < |s| => LowerChar(s[i]))
  }

  /** Lower-casing twice is lower-casing once: a lower-cased name compares the same again. */
  lemma LowerIdempotent(s: string)
    ensures Lower(Lower(s)) == Lower(s)
  {
  }

  /** `s.rstrip(chars)`: removes every trailing character that belongs to `chars`,
      however many, not a fixed suffix. */
  function RStrip(s: string, chars: set<char>): (r: string)
    ensures r <= s
    ensures r == [] || r[|r| - 1] !in chars
    ensures forall i :: |r| <= i < |s| ==> s[i] in chars
    decreases |s|
  {
    if s != [] && s[|s| - 1] in chars then RStrip(s[..|s| - 1], chars) else s
  }

  /** The slice `s[:n]`: the first `n` elements, or all but the last `-n` when `n` is negative. */
  function SlicePrefix<T>(s: seq<T>, n: int): (r: seq<T>)
    ensures r <= s
    ensures 0 <= n ==> |r| == if n <= |s| then n else |s|
    ensures n < 0 ==> |r| == if -n <= |s| then |s| + n else 0
  {
    if 0 <= n then (if n <= |s| then s[..n] else s)
    else if -n <= |s| then s[..|s| + n]
    else []
  }

  function DigitChar(d: nat): char
    requires d < 10
  {
    "0123456789"[d]
  }

  predicate IsDigit(c: char)
  {
    '0' <= c <= '9'
  }

  /** `str(n)` for a natural number, as an f-string prints it. */
  function Decimal(n: nat): (s: string)
    ensures |s| >= 1
    ensures forall i :: 0 <= i < |s| ==> IsDigit(s[i])
    decreases n
  {
    if n < 10 then [DigitChar(n)] else Decimal(n / 10) + [DigitChar(n % 10)]
  }

  /** `int(s)` on a string of decimal digits; the reference against which `Decimal` is checked. */
  function ParseDecimal(s: string): nat
    requires forall i :: 0 <= i < |s| ==> IsDigit(s[i])
    decreases |s|
  {
    if s == [] then 0
    else
      assert IsDigit(s[|s| - 1]);
      ParseDecimal(s[..|s| - 1]) * 10 + (s[|s| - 1] as int - '0' as int)
  }

  /** Printing a number in decimal and reading it back gives the number. */
  lemma {:induction false} DecimalRoundTrip(n: nat)
    ensures ParseDecimal(Decimal(n)) == n
    decreases n
  {
    var s := Decimal(n);
    DigitValue(n % 10);
    if n >= 10 {
      DecimalRoundTrip(n / 10);
      assert s == Decimal(n / 10) + [DigitChar(n % 10)];
      assert s[..|s| - 1] == Decimal(n / 10);
    } else {
      assert s == [DigitChar(n)];
      assert s[..0] == [];
    }
  }

  /** The character of a digit encodes its value. */
  lemma DigitValue(d: nat)
    requires d < 10
    ensures DigitChar(d) as int - '0' as int == d
  {
  }
}
