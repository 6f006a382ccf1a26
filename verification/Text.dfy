/** Sequences, Python string primitives and decimal numerals shared by the other modules. */
module Text {

  datatype Option<+T> = None | Some(value: T) {
    predicate IsFailure() { None? }

    function PropagateFailure<U>(): Option<U>
      requires None?
    {
      None
    }

    function Extract(): T
      requires Some?
    {
      value
    }
  }

  // ---------------------------------------------------------------- sequences

  /** `"".join(parts)` and `[x for part in parts for x in part]`. */
  function Flat<T>(parts: seq<seq<T>>): seq<T> {
    if parts == [] then [] else parts[0] + Flat(parts[1..])
  }

  lemma {:induction false} FlatAppend<T>(a: seq<seq<T>>, b: seq<seq<T>>)
    ensures Flat(a + b) == Flat(a) + Flat(b)
  {
    if a == [] {
      assert a + b == b;
    } else {
      FlatAppend(a[1..], b);
      assert (a + b)[1..] == a[1..] + b;
      assert Flat(a + b) == a[0] + (Flat(a[1..]) + Flat(b));
    }
  }

  lemma ConcatAssoc<T>(a: seq<T>, b: seq<T>, c: seq<T>)
    ensures (a + b) + c == a + (b + c)
  {
  }

  lemma FlatCons<T>(x: seq<T>, rest: seq<seq<T>>)
    ensures Flat([x] + rest) == x + Flat(rest)
  {
    assert ([x] + rest)[1..] == rest;
  }

  lemma FlatSnoc<T>(a: seq<seq<T>>, x: seq<T>)
    ensures Flat(a + [x]) == Flat(a) + x
  {
    FlatAppend(a, [x]);
    assert Flat([x]) == x + Flat<T>([]) == x;
  }

  lemma FlatTake<T>(parts: seq<seq<T>>, k: nat)
    requires k < |parts|
    ensures Flat(parts[..k + 1]) == Flat(parts[..k]) + parts[k]
  {
    assert parts[..k + 1] == parts[..k] + [parts[k]];
    FlatSnoc(parts[..k], parts[k]);
  }

  /** `b` holds `part` at position `pos`. */
  predicate At<T(==)>(b: seq<T>, pos: nat, part: seq<T>) {
    pos + |part| <= |b| && b[pos..pos + |part|] == part
  }

  lemma AtSplit<T>(b: seq<T>, pos: nat, left: seq<T>, right: seq<T>)
    requires At(b, pos, left + right)
    ensures At(b, pos, left) && At(b, pos + |left|, right)
  {
    var whole := b[pos..pos + |left + right|];
    assert left == whole[..|left|] == b[pos..pos + |left|];
    assert right == whole[|left|..] == b[pos + |left|..pos + |left| + |right|];
  }

  /** The `k`-th part of a concatenation starts where the parts before it end. */
  lemma AtFlat<T>(b: seq<T>, pos: nat, parts: seq<seq<T>>, k: nat)
    requires At(b, pos, Flat(parts)) && k < |parts|
    ensures At(b, pos + |Flat(parts[..k])|, parts[k])
    ensures |Flat(parts[..k + 1])| == |Flat(parts[..k])| + |parts[k]|
  {
    FlatAppend(parts[..k], parts[k..]);
    assert parts[..k] + parts[k..] == parts;
    AtSplit(b, pos, Flat(parts[..k]), Flat(parts[k..]));
    AtSplit(b, pos + |Flat(parts[..k])|, parts[k], Flat(parts[k..][1..]));
    FlatTake(parts, k);
  }

  /** `[s[i:i + size] for i in range(0, len(s), size)]`. */
  function Chunks<T>(s: seq<T>, size: nat): seq<seq<T>>
    requires size > 0
  {
    if |s| == 0 then [] else if |s| <= size then [s] else [s[..size]] + Chunks(s[size..], size)
  }

  /** Cutting into chunks loses nothing, and only the last chunk may be short. */
  lemma {:induction false} ChunksFlat<T>(s: seq<T>, size: nat)
    requires size > 0
    ensures Flat(Chunks(s, size)) == s
    ensures s != [] ==> Chunks(s, size) != []
    ensures forall i :: 0 <= i < |Chunks(s, size)| ==> 0 < |Chunks(s, size)[i]| <= size
    ensures forall i :: 0 <= i < |Chunks(s, size)| - 1 ==> |Chunks(s, size)[i]| == size
  {
    if |s| > size {
      ChunksFlat(s[size..], size);
      assert s == s[..size] + s[size..];
    }
  }

  /** No element twice. */
  predicate Unique<T(==)>(s: seq<T>) { forall i, j :: 0 <= i < j < |s| ==> s[i] != s[j] }

  /** `[x for x in s if keep(x)]`. */
  function Filter<T>(keep: T -> bool, s: seq<T>): seq<T> {
    if s == [] then [] else (if keep(s[0]) then [s[0]] else []) + Filter(keep, s[1..])
  }

  lemma {:induction false} FilterAppend<T>(keep: T -> bool, a: seq<T>, b: seq<T>)
    ensures Filter(keep, a + b) == Filter(keep, a) + Filter(keep, b)
  {
    if a == [] {
      assert a + b == b;
    } else {
      FilterAppend(keep, a[1..], b);
      var head := if keep(a[0]) then [a[0]] else [];
      assert (a + b)[1..] == a[1..] + b && (a + b)[0] == a[0];
      ConcatAssoc(head, Filter(keep, a[1..]), Filter(keep, b));
    }
  }

  lemma FilterSnoc<T>(keep: T -> bool, s: seq<T>, x: T)
    ensures Filter(keep, s + [x]) == Filter(keep, s) + (if keep(x) then [x] else [])
  {
    FilterAppend(keep, s, [x]);
    assert [x][1..] == [];
  }

  lemma {:induction false} FilterSame<T>(p: T -> bool, q: T -> bool, s: seq<T>)
    requires forall i :: 0 <= i < |s| ==> p(s[i]) == q(s[i])
    ensures Filter(p, s) == Filter(q, s)
  {
    if s != [] {
      FilterSame(p, q, s[1..]);
    }
  }

  /** A filter is the identity exactly when it keeps every element. */
  lemma {:induction false} FilterAll<T>(keep: T -> bool, s: seq<T>)
    ensures |Filter(keep, s)| <= |s|
    ensures Filter(keep, s) == s <==> forall i :: 0 <= i < |s| ==> keep(s[i])
  {
    if s != [] {
      FilterAll(keep, s[1..]);
      if keep(s[0]) {
        assert s == [s[0]] + s[1..];
        assert Filter(keep, s)[1..] == Filter(keep, s[1..]);
      }
    }
  }

  lemma {:induction false} FilterIn<T>(p: T -> bool, s: seq<T>, x: T)
    ensures x in Filter(p, s) <==> x in s && p(x)
  {
    if s != [] {
      FilterIn(p, s[1..], x);
    }
  }

  lemma {:induction false} FilterNone<T>(keep: T -> bool, s: seq<T>)
    requires forall i :: 0 <= i < |s| ==> !keep(s[i])
    ensures Filter(keep, s) == []
  {
    if s != [] {
      FilterNone(keep, s[1..]);
    }
  }

  /** `sep.join(parts)`. */
  function Join(sep: string, parts: seq<string>): string {
    if parts == [] then "" else if |parts| == 1 then parts[0] else parts[0] + sep + Join(sep, parts[1..])
  }

  lemma {:induction false} JoinSnoc(sep: string, parts: seq<string>, x: string)
    requires parts != []
    ensures Join(sep, parts + [x]) == Join(sep, parts) + sep + x
  {
    if |parts| > 1 {
      JoinSnoc(sep, parts[1..], x);
      assert (parts + [x])[1..] == parts[1..] + [x];
    } else {
      assert (parts + [x])[1..] == [x];
    }
  }

  // ---------------------------------------------------------------- str.replace with a one-character pattern

  function ReplaceChar(s: string, c: char, sub: string): string {
    if s == "" then "" else (if s[0] == c then sub else [s[0]]) + ReplaceChar(s[1..], c, sub)
  }

  lemma {:induction false} ReplaceCharAppend(a: string, b: string, c: char, sub: string)
    ensures ReplaceChar(a + b, c, sub) == ReplaceChar(a, c, sub) + ReplaceChar(b, c, sub)
  {
    if a == "" {
      assert a + b == b;
    } else {
      ReplaceCharAppend(a[1..], b, c, sub);
      assert (a + b)[1..] == a[1..] + b && (a + b)[0] == a[0];
      ConcatAssoc(if a[0] == c then sub else [a[0]], ReplaceChar(a[1..], c, sub), ReplaceChar(b, c, sub));
    }
  }

  lemma ReplaceCharOne(x: char, c: char, sub: string)
    ensures ReplaceChar([x], c, sub) == if x == c then sub else [x]
  {
    assert [x][1..] == "";
  }

  // ---------------------------------------------------------------- decimal numerals

  function Digit(d: nat): (c: char)
    requires d < 10
    ensures '0' <= c <= '9'
    ensures c as int - '0' as int == d
  {
    (('0' as int) + d) as char
  }

  /** `str(n)` for a non-negative integer. */
  function Dec(n: nat): string {
    if n < 10 then [Digit(n)] else Dec(n / 10) + [Digit(n % 10)]
  }

  predicate IsDigit(c: char) { '0' <= c <= '9' }

  predicate AllDigits(s: string) { forall i :: 0 <= i < |s| ==> IsDigit(s[i]) }

  /** The number a digit string denotes. */
  function Val(s: string): nat
    requires AllDigits(s)
  {
    if s == "" then 0 else Val(s[..|s| - 1]) * 10 + (s[|s| - 1] as int - '0' as int)
  }

  lemma {:induction false} DecVal(n: nat)
    ensures |Dec(n)| >= 1 && AllDigits(Dec(n)) && Val(Dec(n)) == n
  {
    if n < 10 {
      assert Dec(n)[..0] == "";
    } else {
      DecVal(n / 10);
      assert Dec(n)[..|Dec(n)| - 1] == Dec(n / 10);
    }
  }

  lemma DecInjective(m: nat, n: nat)
    requires Dec(m) == Dec(n)
    ensures m == n
  {
    DecVal(m);
    DecVal(n);
  }

  function Pow10(k: nat): nat {
    if k == 0 then 1 else 10 * Pow10(k - 1)
  }

  lemma {:induction false} DecLength(n: nat, k: nat)
    requires k >= 1
    ensures |Dec(n)| <= k <==> n < Pow10(k)
  {
    if n < 10 {
      Pow10AtLeast10(k);
    } else if k == 1 {
      DecVal(n / 10);
      assert Pow10(1) == 10 * Pow10(0) == 10;
    } else {
      DecLength(n / 10, k - 1);
    }
  }

  lemma {:induction false} Pow10AtLeast10(k: nat)
    requires k >= 1
    ensures Pow10(k) >= 10
  {
    if k == 1 {
      assert Pow10(1) == 10 * Pow10(0);
    } else {
      Pow10AtLeast10(k - 1);
    }
  }

  /** `f"{n:0{width}d}"`. */
  function Padded(n: nat, width: nat): string {
    if |Dec(n)| >= width then Dec(n) else seq(width - |Dec(n)|, _ => '0') + Dec(n)
  }

  lemma {:induction false} ZerosVal(zeros: string, s: string)
    requires forall i :: 0 <= i < |zeros| ==> zeros[i] == '0'
    requires AllDigits(s)
    ensures AllDigits(zeros + s) && Val(zeros + s) == Val(s)
  {
    if s != "" {
      var front := s[..|s| - 1];
      ZerosVal(zeros, front);
      assert (zeros + s)[..|zeros + s| - 1] == zeros + front;
    } else if zeros != "" {
      ZerosVal(zeros[..|zeros| - 1], "");
      assert zeros[..|zeros| - 1] + "" == zeros[..|zeros| - 1];
      assert zeros + s == zeros;
    } else {
      assert zeros + s == "";
    }
  }

  lemma PaddedVal(n: nat, width: nat)
    ensures |Padded(n, width)| == if |Dec(n)| >= width then |Dec(n)| else width
    ensures AllDigits(Padded(n, width)) && Val(Padded(n, width)) == n
  {
    DecVal(n);
    if |Dec(n)| < width {
      ZerosVal(seq(width - |Dec(n)|, _ => '0'), Dec(n));
    }
  }
}
