/** Small vocabulary shared by the other modules. */
module Common {

  datatype Option<+T> = None | Some(value: T)

  /** One octet of a stream, a palette table or a colour channel. */
  type Byte = x: int | 0 <= x < 256

  function Min(a: int, b: int): int {
    if a <= b then a else b
  }

  function Max(a: int, b: int): int {
    if a >= b then a else b
  }

  function RMin(a: real, b: real): real {
    if a <= b then a else b
  }

  function RMax(a: real, b: real): real {
    if a >= b then a else b
  }

  lemma OneLonger<T>(s: seq<T>, n: nat)
    requires n < |s|
    ensures s[..n + 1] == s[..n] + [s[n]]
  {
  }

  lemma Regroup<T>(a: seq<T>, b: seq<T>, c: seq<T>)
    ensures a + b + c == a + (b + c)
  {
  }

  /** Concatenation of a list of pieces, for instance one stream cut into deliveries. */
  function Flatten<T>(parts: seq<seq<T>>): seq<T> {
    if parts == [] then [] else parts[0] + Flatten(parts[1..])
  }

  lemma {:induction false} FlattenAppend<T>(a: seq<seq<T>>, b: seq<seq<T>>)
    ensures Flatten(a + b) == Flatten(a) + Flatten(b)
  {
    if a == [] {
      assert a + b == b;
    } else {
      assert (a + b)[1..] == a[1..] + b;
      FlattenAppend(a[1..], b);
    }
  }

  /** Printable ASCII. */
  predicate Printable(s: string) {
    forall i :: 0 <= i < |s| ==> ' ' <= s[i] < 127 as char
  }

  // ------------------------------------------------ row-major places

  /** Two places in row-major order are the same only if both coordinates are. */
  lemma RowMajorInjective(a: int, b: int, a': int, b': int, n: int)
    requires 0 <= b < n && 0 <= b' < n
    requires a * n + b == a' * n + b'
    ensures a == a' && b == b'
  {
    if a > a' {
      Below(a', b', a, n);
    } else if a < a' {
      Below(a, b, a', n);
    }
  }

  lemma Distribute(a: int, n: int)
    ensures (a + 1) * n == a * n + n
  {
  }

  lemma {:induction false} Below(a: int, b: int, a': int, n: int)
    requires 0 <= b < n && a < a'
    ensures a * n + b < a' * n
    decreases a' - a
  {
    Distribute(a' - 1, n);
    if a + 1 < a' {
      Below(a, b, a' - 1, n);
    }
  }

  lemma RowMajorInside(a: int, b: int, h: int, n: int)
    requires 0 <= a < h && 0 <= b < n
    ensures 0 <= a * n + b < h * n
  {
    Below(a, b, h, n);
    if a > 0 {
      Below(0, 0, a, n);
    }
  }

  lemma RowMajorDivMod(a: int, b: int, n: int)
    requires 0 <= b < n
    ensures (a * n + b) / n == a && (a * n + b) % n == b
  {
    var i := a * n + b;
    RowMajorInjective(i / n, i % n, a, b, n);
  }
}
