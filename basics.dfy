/**
 * Values shared by the storage-group model: Java `long` timestamps, an
 * Option type for values that may be absent (or Java `null`), and the
 * decimal rendering of a timestamp that names every newly opened data file.
 */
module Basics {

  /** Bounds of a Java `long`; every timestamp in the engine is a `long`. */
  const LongMin: int := -0x8000_0000_0000_0000
  const LongMax: int := 0x7FFF_FFFF_FFFF_FFFF

  type Long = t: int | LongMin <= t <= LongMax

  datatype Option<T> = None | Some(value: T)

  function MaxLong(a: Long, b: Long): Long
  {
    if a < b then b else a
  }

  // ---------------------------------------------------------------------------
  // Decimal rendering of a timestamp (Java's `time + ""`).
  // ---------------------------------------------------------------------------

  predicate IsDigit(c: char)
  {
    '0' <= c <= '9'
  }

  predicate AllDigits(s: string)
  {
    forall i :: 0 <= i < |s| ==> IsDigit(s[i])
  }

  function DigitChar(d: nat): (c: char)
    requires d < 10
    ensures IsDigit(c)
  {
    ('0' as int + d) as char
  }

  function DigitValue(c: char): (d: nat)
    requires IsDigit(c)
    ensures d < 10
  {
    c as int - '0' as int
  }

  /** The digits of `n`, most significant first, without leading zeros. */
  function Digits(n: nat): (s: string)
    ensures 1 <= |s|
    ensures AllDigits(s)
    ensures |s| > 1 ==> s[0] != '0'
    decreases n
  {
    if n < 10 then [DigitChar(n)] else Digits(n / 10) + [DigitChar(n % 10)]
  }

  /** The number a non-empty string of digits denotes. */
  function DigitsValue(s: string): nat
    requires AllDigits(s)
  {
    if s == [] then 0 else 10 * DigitsValue(s[..|s| - 1]) + DigitValue(s[|s| - 1])
  }

  /** Java's `Long.toString(t)`: a minus sign for negative values, then the digits. */
  function DecimalString(t: int): string
  {
    if t < 0 then ['-'] + Digits(-t) else Digits(t)
  }

  /** Reads back a string produced by `DecimalString`; anything else is `None`. */
  function ParseDecimal(s: string): Option<int>
  {
    if |s| >= 2 && s[0] == '-' && AllDigits(s[1..]) then Some(-(DigitsValue(s[1..]) as int))
    else if |s| >= 1 && AllDigits(s) then Some(DigitsValue(s))
    else None
  }

  lemma {:induction false} DigitsRoundTrip(n: nat)
    ensures DigitsValue(Digits(n)) == n
    decreases n
  {
    if n >= 10 {
      var s := Digits(n);
      assert s[..|s| - 1] == Digits(n / 10);
      DigitsRoundTrip(n / 10);
    }
  }

  /** The decimal name of a timestamp determines the timestamp. */
  lemma DecimalRoundTrip(t: int)
    ensures ParseDecimal(DecimalString(t)) == Some(t)
  {
    var s := DecimalString(t);
    if t < 0 {
      var d := Digits(-t);
      assert s == ['-'] + d && s[1..] == d;
      assert |s| >= 2 && s[0] == '-' && AllDigits(s[1..]);
      DigitsRoundTrip(-t);
      assert DigitsValue(s[1..]) == -t;
    } else {
      assert s == Digits(t) && IsDigit(s[0]);
      DigitsRoundTrip(t);
    }
  }

  /** Two different timestamps never yield the same file name. */
  lemma DecimalStringInjective(t1: int, t2: int)
    requires t1 != t2
    ensures DecimalString(t1) != DecimalString(t2)
  {
    DecimalRoundTrip(t1);
    DecimalRoundTrip(t2);
  }

  // ---------------------------------------------------------------------------
  // File paths.
  // ---------------------------------------------------------------------------

  /** `Paths.get(baseDir, storageGroup, name)`, kept as its three components. */
  datatype FilePath = FilePath(baseDir: string, storageGroup: string, name: string)

  /** The path of a data file opened for a record with timestamp `time`. */
  function TsFilePath(baseDir: string, storageGroup: string, time: Long): (p: FilePath)
    ensures p.baseDir == baseDir && p.storageGroup == storageGroup
    ensures ParseDecimal(p.name) == Some(time as int)
  {
    DecimalRoundTrip(time);
    FilePath(baseDir, storageGroup, DecimalString(time))
  }

  // ---------------------------------------------------------------------------
  // Sequences used as lists and queues.
  // ---------------------------------------------------------------------------

  predicate NoDuplicates<T(==)>(s: seq<T>)
  {
    forall i, j :: 0 <= i < j < |s| ==> s[i] != s[j]
  }

  /** An element of a list without duplicates occurs in it at most once. */
  lemma {:induction false} DistinctOccursAtMostOnce<T>(s: seq<T>, x: T)
    requires NoDuplicates(s)
    ensures multiset(s)[x] <= 1
  {
    if s != [] {
      assert s == [s[0]] + s[1..];
      assert NoDuplicates(s[1..]);
      DistinctOccursAtMostOnce(s[1..], x);
      if s[0] == x {
        assert x !in s[1..];
      }
    }
  }

  /** `List.remove(Object)`: drops the first occurrence of `x`, if any. */
  function RemoveFirst<T(==)>(s: seq<T>, x: T): (r: seq<T>)
    ensures x in s ==> |r| == |s| - 1
    ensures x !in s ==> r == s
    ensures forall i :: 0 <= i < |r| ==> r[i] in s
  {
    if s == [] then []
    else
      assert s == [s[0]] + s[1..];
      if s[0] == x then s[1..]
      else
        var rest := RemoveFirst(s[1..], x);
        assert x in s <==> x in s[1..];
        [s[0]] + rest
  }

  /** `RemoveFirst` takes away exactly one occurrence of `x` and nothing else. */
  lemma {:induction false} RemoveFirstMultiset<T>(s: seq<T>, x: T)
    ensures multiset(RemoveFirst(s, x)) == multiset(s) - multiset{x}
  {
    if s != [] {
      assert s == [s[0]] + s[1..];
      if s[0] != x {
        RemoveFirstMultiset(s[1..], x);
        assert RemoveFirst(s, x) == [s[0]] + RemoveFirst(s[1..], x);
      }
    }
  }

  /** Removing an element keeps a list free of duplicates and, if it occurred
      at most once, removes it completely. */
  lemma {:induction false} RemoveFirstFromDistinct<T>(s: seq<T>, x: T)
    requires NoDuplicates(s)
    ensures NoDuplicates(RemoveFirst(s, x))
    ensures x !in RemoveFirst(s, x)
  {
    if s != [] && s[0] != x {
      assert NoDuplicates(s[1..]);
      RemoveFirstFromDistinct(s[1..], x);
      var r := RemoveFirst(s, x);
      assert r == [s[0]] + RemoveFirst(s[1..], x);
      forall i, j | 0 <= i < j < |r| ensures r[i] != r[j] {
        if i == 0 {
          assert r[j] in s[1..];
        }
      }
    } else if s != [] {
      assert NoDuplicates(s[1..]);
    }
  }
}
