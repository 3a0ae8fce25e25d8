/** IPv4 prefixes and longest-match lookup (section 5.2.4.3 of RFC 1812). */
module LongestMatch {
  import opened Wrappers

  const ADDRESS_LIMIT: nat := 0x1_0000_0000

  type Address = n: nat | n < ADDRESS_LIMIT

  type PrefixLen = n: nat | n <= 32

  function Pow2(n: nat): (r: nat)
    ensures r > 0
  {
    if n == 0 then 1 else 2 * Pow2(n - 1)
  }

  /** How many addresses a prefix of this length spans. */
  function Block(len: PrefixLen): (r: nat)
    ensures r > 0
  {
    Pow2(32 - len)
  }

  lemma RemainderIsSmaller(a: nat, b: nat)
    requires b > 0
    ensures a % b <= a
  {
    if a < b {
      assert a % b == a;
    }
  }

  function Network(a: Address, len: PrefixLen): Address {
    RemainderIsSmaller(a, Block(len));
    a - a % Block(len)
  }

  /** What a route is filed under: a host route, a network of either family. */
  datatype Key = Host(address: Address) | Net(address: Address, len: PrefixLen) | Net6(high: nat, len6: nat)

  function NetOf(a: Address, len: PrefixLen): Key {
    Net(Network(a, len), len)
  }

  predicate Contains(k: Key, a: Address) {
    match k
    case Host(address) => address == a
    case Net(address, len) => address / Block(len) == a / Block(len)
    case Net6(_, _) => false
  }

  /** A host route is more specific than any network. */
  function Specificity(k: Key): nat {
    if k.Net? then k.len else 33
  }

  type Table<H> = map<Key, H>

  /** Networks are filed under their first address. */
  predicate Canonical<H>(t: Table<H>) {
    forall k | k in t && k.Net? :: k.address % Block(k.len) == 0
  }

  /** The first hit among the networks of length `from` down to `to` that contain the address. */
  function SearchDown<H>(t: Table<H>, a: Address, from: PrefixLen, to: PrefixLen): Option<H>
    decreases from
  {
    if from < to then None
    else if NetOf(a, from) in t then Some(t[NetOf(a, from)])
    else if from == 0 then None
    else SearchDown(t, a, from - 1, to)
  }

  function Lookup<H>(t: Table<H>, a: Address): Option<H> {
    if Host(a) in t then Some(t[Host(a)]) else SearchDown(t, a, 32, 0)
  }

  ghost predicate IsBest<H>(t: Table<H>, a: Address, k: Key) {
    k in t && Contains(k, a) && forall m | m in t && Contains(m, a) :: Specificity(m) <= Specificity(k)
  }

  lemma MultipleIsFar(d: int, b: int)
    requires b > 0
    ensures d >= 1 ==> d * b >= b
    ensures d <= -1 ==> d * b <= -b
  {
  }

  lemma DivisionIsUnique(x: int, b: int, q: int, r: int)
    requires b > 0 && x == q * b + r && 0 <= r < b
    ensures x / b == q && x % b == r
  {
    var d := q - x / b;
    assert x == x / b * b + x % b;
    assert d * b == x % b - r;
    MultipleIsFar(d, b);
  }

  lemma ContainsOwnNetwork(a: Address, len: PrefixLen)
    ensures Contains(NetOf(a, len), a) && Network(a, len) % Block(len) == 0
  {
    var b := Block(len);
    assert Network(a, len) == a / b * b + 0;
    DivisionIsUnique(Network(a, len), b, a / b, 0);
  }

  lemma CanonicalContainerIsOwn(k: Key, a: Address)
    requires k.Net? && k.address % Block(k.len) == 0 && Contains(k, a)
    ensures k == NetOf(a, k.len)
  {
    var b := Block(k.len);
    assert k.address == k.address / b * b;
    assert a == a / b * b + a % b;
  }

  lemma {:induction false} SearchFindsLongest<H>(t: Table<H>, a: Address, from: PrefixLen)
    requires Canonical(t)
    ensures SearchDown(t, a, from, 0).None? ==>
              forall m | m in t && m.Net? && Contains(m, a) :: m.len > from
    ensures SearchDown(t, a, from, 0).Some? ==>
              exists k :: k in t && k.Net? && k.len <= from && Contains(k, a) && t[k] == SearchDown(t, a, from, 0).value
                          && forall m | m in t && m.Net? && Contains(m, a) && m.len <= from :: m.len <= k.len
    decreases from
  {
    var k := NetOf(a, from);
    ContainsOwnNetwork(a, from);
    if k !in t {
      forall m | m in t && m.Net? && Contains(m, a)
        ensures m.len != from
      {
        CanonicalContainerIsOwn(m, a);
      }
      if from > 0 {
        SearchFindsLongest(t, a, from - 1);
      }
    }
  }

  /** Lookup returns the hop of the most specific route that contains the address, and nothing only if none does. */
  lemma LookupIsLongestMatch<H>(t: Table<H>, a: Address)
    requires Canonical(t)
    ensures Lookup(t, a).None? <==> forall k | k in t :: !Contains(k, a)
    ensures Lookup(t, a).Some? ==> exists k :: IsBest(t, a, k) && t[k] == Lookup(t, a).value
  {
    SearchFindsLongest(t, a, 32);
    if Host(a) in t {
      assert IsBest(t, a, Host(a));
    } else if SearchDown(t, a, 32, 0).Some? {
      var k :| k in t && k.Net? && Contains(k, a) && t[k] == SearchDown(t, a, 32, 0).value
               && forall m | m in t && m.Net? && Contains(m, a) && m.len <= 32 :: m.len <= k.len;
      assert IsBest(t, a, k);
    }
  }

  /** Searching a range of lengths is searching its upper part first. */
  lemma {:induction false} SearchSplits<H>(t: Table<H>, a: Address, from: PrefixLen, mid: PrefixLen)
    requires 0 < mid
    ensures SearchDown(t, a, from, 0)
      == (if SearchDown(t, a, from, mid).Some? then SearchDown(t, a, from, mid)
          else SearchDown(t, a, if from < mid then from else mid - 1, 0))
    decreases from
  {
    if from >= mid && NetOf(a, from) !in t && from > 0 {
      SearchSplits(t, a, from - 1, mid);
    }
  }

  /** Routes of other lengths do not matter to a search. */
  lemma {:induction false} SearchIgnores<H>(t: Table<H>, u: Table<H>, a: Address, from: PrefixLen, to: PrefixLen)
    requires forall k: Key | k.Net? && to <= k.len <= from :: (k in t <==> k in u) && (k in t ==> t[k] == u[k])
    ensures SearchDown(t, a, from, to) == SearchDown(u, a, from, to)
    decreases from
  {
    if from >= to && from > 0 {
      SearchIgnores(t, u, a, from - 1, to);
    }
  }

  lemma Pow2Adds(a: nat, b: nat)
    ensures Pow2(a + b) == Pow2(a) * Pow2(b)
  {
    if a > 0 {
      Pow2Adds(a - 1, b);
    }
  }

  /** The default route contains every address, and the two halves of length one share them out. */
  lemma BroadNetworks(a: Address)
    ensures Pow2(31) == 0x8000_0000 && Pow2(32) == ADDRESS_LIMIT
    ensures Contains(Net(0, 0), a)
    ensures NetOf(a, 1) == if a < 0x8000_0000 then Net(0, 1) else Net(0x8000_0000, 1)
  {
    assert Pow2(1) == 2 && Pow2(2) == 4 && Pow2(4) == 16 by { Pow2Adds(2, 2); Pow2Adds(1, 1); }
    Pow2Adds(4, 4);
    Pow2Adds(8, 8);
    Pow2Adds(16, 8);
    Pow2Adds(24, 4);
    Pow2Adds(28, 2);
    Pow2Adds(30, 1);
    assert Pow2(32) == 2 * Pow2(31);
  }

  /** A network given by any of its addresses contains the same addresses as when filed under its first. */
  lemma NetworkKeepsContents(k: Key, a: Address)
    requires k.Net?
    ensures Contains(NetOf(k.address, k.len), a) <==> Contains(k, a)
  {
    ContainsOwnNetwork(k.address, k.len);
  }
}
