/** The string key under which a cluster is stored: each operator id in decimal, followed by a slash. */
module ClusterKeys {
  import opened Wrappers

  function Digit(d: nat): char
    requires d < 10
  {
    "0123456789"[d]
  }

  /** Decimal numeral of an id, as `%d` prints it. */
  function Decimal(n: nat): string {
    if n < 10 then [Digit(n)] else Decimal(n / 10) + [Digit(n % 10)]
  }

  function ClusterKey(operators: seq<nat>): string {
    if operators == [] then ""
    else ClusterKey(operators[..|operators| - 1]) + Decimal(operators[|operators| - 1]) + "/"
  }

  /** The builder loop. */
  method BuildClusterKey(operators: seq<nat>) returns (key: string)
    ensures key == ClusterKey(operators)
  {
    key := "";
    for i := 0 to |operators|
      invariant key == ClusterKey(operators[..i])
    {
      assert operators[..i + 1][..i] == operators[..i];
      key := key + Decimal(operators[i]) + "/";
    }
    assert operators[..|operators|] == operators;
  }

  // ---- Reading a key back ----

  datatype Scan = Scan(ids: seq<nat>, current: nat) | Bad

  function ScanChar(st: Scan, c: char): Scan {
    if st.Bad? then Bad
    else if c == '/' then Scan(st.ids + [st.current], 0)
    else if '0' <= c <= '9' then st.(current := 10 * st.current + (c as int - '0' as int))
    else Bad
  }

  function ScanAll(st: Scan, s: string): Scan {
    if s == "" then st else ScanChar(ScanAll(st, s[..|s| - 1]), s[|s| - 1])
  }

  function ParseKey(key: string): Option<seq<nat>> {
    var st := ScanAll(Scan([], 0), key);
    if st.Scan? && st.current == 0 then Some(st.ids) else None
  }

  lemma {:induction false} ScanConcat(st: Scan, a: string, b: string)
    ensures ScanAll(st, a + b) == ScanAll(ScanAll(st, a), b)
  {
    if b == "" {
      assert a + b == a;
    } else {
      assert (a + b)[..|a + b| - 1] == a + b[..|b| - 1];
      ScanConcat(st, a, b[..|b| - 1]);
    }
  }

  lemma ScanDigit(start: Scan, before: string, d: nat)
    requires d < 10 && ScanAll(start, before).Scan?
    ensures var st := ScanAll(start, before);
      ScanAll(start, before + [Digit(d)]) == Scan(st.ids, 10 * st.current + d)
  {
    assert (before + [Digit(d)])[..|before|] == before;
  }

  lemma {:induction false} ScanDecimal(ids: seq<nat>, n: nat)
    ensures ScanAll(Scan(ids, 0), Decimal(n)) == Scan(ids, n)
  {
    if n < 10 {
      ScanDigit(Scan(ids, 0), "", n);
    } else {
      ScanDecimal(ids, n / 10);
      ScanDigit(Scan(ids, 0), Decimal(n / 10), n % 10);
    }
  }

  lemma ScanSlash(ids: seq<nat>, n: nat)
    ensures ScanAll(Scan(ids, n), "/") == Scan(ids + [n], 0)
  {
    assert "/"[..0] == "";
  }

  lemma ScanPart(start: Scan, before: string, ids: seq<nat>, n: nat)
    requires ScanAll(start, before) == Scan(ids, 0)
    ensures ScanAll(start, before + Decimal(n) + "/") == Scan(ids + [n], 0)
  {
    ScanConcat(start, before + Decimal(n), "/");
    ScanConcat(start, before, Decimal(n));
    ScanDecimal(ids, n);
    ScanSlash(ids, n);
  }

  lemma {:induction false} ScanClusterKey(operators: seq<nat>)
    ensures ScanAll(Scan([], 0), ClusterKey(operators)) == Scan(operators, 0)
  {
    if operators != [] {
      var init, last := operators[..|operators| - 1], operators[|operators| - 1];
      ScanClusterKey(init);
      ScanPart(Scan([], 0), ClusterKey(init), init, last);
      assert operators == init + [last];
    }
  }

  /** Every key can be read back to the ids it was built from. */
  lemma ClusterKeyRoundTrip(operators: seq<nat>)
    ensures ParseKey(ClusterKey(operators)) == Some(operators)
  {
    ScanClusterKey(operators);
  }

  /** Distinct operator sequences never share a key. */
  lemma ClusterKeyInjective(a: seq<nat>, b: seq<nat>)
    requires ClusterKey(a) == ClusterKey(b)
    ensures a == b
  {
    ClusterKeyRoundTrip(a);
    ClusterKeyRoundTrip(b);
  }
}
