/** Values shared by every part of the ground-truth database builder. */
module Common {

  datatype Option<T> = None | Some(value: T)

  datatype Result<T, E> = Success(value: T) | Failure(error: E)

  /** Why building the database stops before any worker runs. */
  datatype BuildError =
    | UnknownDataset(name: string)   // `dataset_name_map[...]` raises KeyError
    | MissingArgument(key: string)   // a required keyword argument (`sensor`, `num_process`) is absent
    | NotImplemented                 // the `raise NotImplementedError()` branch of the path naming
    | InvalidProcessCount(p: int)    // `n // 0` or a process pool with fewer than one worker

  /** A filesystem path, as the sequence of its components (`root / "x"` appends one). */
  type Path = seq<string>

  function Min(a: int, b: int): int
  {
    if a <= b then a else b
  }

  /** The decimal digit character for `d`. */
  function Digit(d: nat): (c: char)
    requires d < 10
    ensures '0' <= c <= '9'
  {
    (48 + d) as char
  }

  /** The number a string of decimal digits denotes, most significant digit first. */
  function DecimalValue(s: string): nat
  {
    if s == [] then 0
    else
      var d := s[|s| - 1] as int - '0' as int;
      DecimalValue(s[..|s| - 1]) * 10 + (if 0 <= d then d else 0)
  }

  /** Decimal rendering of a natural number, as Python's `str` and f-strings write it: the digits
      denote `n`, and there is no leading zero. */
  function NatToString(n: nat): (s: string)
    ensures 1 <= |s|
    ensures n < 10 <==> |s| == 1
    ensures forall k :: 0 <= k < |s| ==> '0' <= s[k] <= '9'
    ensures DecimalValue(s) == n
    ensures |s| > 1 ==> s[0] != '0'
  {
    if n < 10 then [Digit(n)]
    else
      var init := NatToString(n / 10);
      var s := init + [Digit(n % 10)];
      assert s[..|s| - 1] == init;
      s
  }

  /** Two numbers with the same decimal rendering are equal. */
  lemma {:induction false} NatToStringInjective(a: nat, b: nat)
    requires NatToString(a) == NatToString(b)
    ensures a == b
  {
    if a < 10 && b < 10 {
      assert Digit(a) == NatToString(a)[0] == NatToString(b)[0] == Digit(b);
    } else if a >= 10 && b >= 10 {
      var sa, sb := NatToString(a), NatToString(b);
      assert sa == NatToString(a / 10) + [Digit(a % 10)];
      assert sb == NatToString(b / 10) + [Digit(b % 10)];
      assert NatToString(a / 10) == sa[..|sa| - 1] == sb[..|sb| - 1] == NatToString(b / 10);
      assert Digit(a % 10) == sa[|sa| - 1] == sb[|sb| - 1] == Digit(b % 10);
      NatToStringInjective(a / 10, b / 10);
    }
  }

  /** Where two equal concatenations split at different points, the shorter head is followed by a
      character of the longer one. */
  lemma CharAtJoin(s: string, t: string, s': string, t': string)
    requires s + t == s' + t' && |s| < |s'| && |t| > 0
    ensures t[0] == s'[|s|]
  {
    assert (s + t)[|s|] == t[0];
    assert (s' + t')[|s|] == s'[|s|];
  }

  /** A decimal rendering followed by a non-digit determines the number: neither rendering can be a
      proper prefix of the other there. */
  lemma NatToStringPrefixInjective(a: nat, b: nat, ta: string, tb: string)
    requires |ta| > 0 && |tb| > 0 && !('0' <= ta[0] <= '9') && !('0' <= tb[0] <= '9')
    requires NatToString(a) + ta == NatToString(b) + tb
    ensures a == b && ta == tb
  {
    var sa, sb := NatToString(a), NatToString(b);
    if |sa| < |sb| {
      CharAtJoin(sa, ta, sb, tb);
    } else if |sb| < |sa| {
      CharAtJoin(sb, tb, sa, ta);
    }
    assert sa == (sa + ta)[..|sa|] == (sb + tb)[..|sb|] == sb;
    assert ta == (sa + ta)[|sa|..] == (sb + tb)[|sb|..] == tb;
    NatToStringInjective(a, b);
  }
}
