/**
 * The server's bounded recency cache (`lru_cache` in server.py): a deque
 * with a maximum length holding (champion name, winrate) pairs, oldest at
 * the front. Appending to a full deque drops its front entry.
 */
module RecencyCache {
  import opened Seqs

  datatype Entry = Entry(name: string, winrate: real)

  /** The deque's entries, oldest first, and its `maxlen`. */
  datatype Cache = Cache(entries: seq<Entry>, maxlen: nat) {
    /** A deque never holds more than `maxlen` entries. */
    predicate Valid() {
      |entries| <= maxlen
    }
  }

  /** `lru_cache(n)`: an empty deque; a negative `maxlen` is rejected by the deque. */
  function New(n: int): (r: Option<Cache>)
    ensures r.Some? <==> n >= 0
    ensures r.Some? ==> r.value.Valid() && r.value.entries == [] && r.value.maxlen == n
  {
    if n < 0 then None else Some(Cache([], n))
  }

  /** The last `n` items of `s`, or all of `s` when it is shorter. */
  function Newest<T>(s: seq<T>, n: nat): (r: seq<T>)
    ensures |r| == if |s| <= n then |s| else n
    ensures forall i :: 0 <= i < |r| ==> r[i] == s[|s| - |r| + i]
  {
    if |s| <= n then s else s[|s| - n..]
  }

  /** `add`: append at the back; a full deque gives up its front entry. */
  function Add(c: Cache, e: Entry): (r: Cache)
    requires c.Valid()
    ensures r.Valid() && r.maxlen == c.maxlen
    ensures r.entries == Newest(c.entries + [e], c.maxlen)
    ensures |c.entries| < c.maxlen ==> r.entries == c.entries + [e]
    ensures 0 < |c.entries| == c.maxlen ==> r.entries == c.entries[1..] + [e]
  {
    if |c.entries| < c.maxlen then c.(entries := c.entries + [e])
    else if c.maxlen == 0 then c
    else
      var s := c.entries + [e];
      assert s[1..] == c.entries[1..] + [e];
      c.(entries := s[1..])
  }

  /** No two entries share a name. */
  predicate UniqueNames(s: seq<Entry>) {
    forall i, j :: 0 <= i < j < |s| ==> s[i].name != s[j].name
  }

  /**
   * `get`'s scan from index `i` on: the index of the first entry named
   * `name`, or -1 when there is none.
   */
  function FirstMatchFrom(s: seq<Entry>, name: string, i: nat): (r: int)
    requires i <= |s|
    ensures r == -1 || i <= r < |s|
    ensures r == -1 <==> forall j :: i <= j < |s| ==> s[j].name != name
    ensures r != -1 ==> s[r].name == name && forall j :: i <= j < r ==> s[j].name != name
    decreases |s| - i
  {
    if i == |s| then -1
    else if s[i].name == name then i
    else FirstMatchFrom(s, name, i + 1)
  }

  function FirstMatch(s: seq<Entry>, name: string): (r: int)
    ensures r == -1 <==> forall j :: 0 <= j < |s| ==> s[j].name != name
    ensures r != -1 ==> 0 <= r < |s| && s[r].name == name && forall j :: 0 <= j < r ==> s[j].name != name
  {
    FirstMatchFrom(s, name, 0)
  }

  /**
   * `evict`'s scan from index `i` on, `found` being the last match before
   * `i` (-1 when none): the index of the last entry named `name`.
   */
  function LastMatchFrom(s: seq<Entry>, name: string, i: nat, found: int): (r: int)
    requires i <= |s| && -1 <= found < i
    requires found != -1 ==> s[found].name == name
    requires forall j :: found < j < i ==> s[j].name != name
    ensures -1 <= r < |s|
    ensures r != -1 ==> s[r].name == name
    ensures forall j :: r < j < |s| ==> s[j].name != name
    decreases |s| - i
  {
    if i == |s| then found
    else LastMatchFrom(s, name, i + 1, if s[i].name == name then i else found)
  }

  function LastMatch(s: seq<Entry>, name: string): (r: int)
    ensures r == -1 <==> forall j :: 0 <= j < |s| ==> s[j].name != name
    ensures r != -1 ==> 0 <= r < |s| && s[r].name == name && forall j :: r < j < |s| ==> s[j].name != name
  {
    LastMatchFrom(s, name, 0, -1)
  }

  /** `s` without its entry at index `k`, the others in order. */
  function RemoveAt(s: seq<Entry>, k: nat): (r: seq<Entry>)
    requires k < |s|
    ensures |r| == |s| - 1
    ensures multiset(r) + multiset{s[k]} == multiset(s)
    ensures forall j :: 0 <= j < |r| ==> r[j] == if j < k then s[j] else s[j + 1]
  {
    assert s == s[..k] + [s[k]] + s[k + 1..];
    s[..k] + s[k + 1..]
  }

  /** `evict`: remove the last entry named `name`, if any. */
  function Evict(c: Cache, name: string): (r: Cache)
    ensures r.maxlen == c.maxlen
    ensures c.Valid() ==> r.Valid()
    ensures (forall j :: 0 <= j < |c.entries| ==> c.entries[j].name != name) ==> r == c
    ensures (exists j :: 0 <= j < |c.entries| && c.entries[j].name == name) ==>
      exists k :: 0 <= k < |c.entries| && c.entries[k].name == name
                  && (forall j :: k < j < |c.entries| ==> c.entries[j].name != name)
                  && r.entries == RemoveAt(c.entries, k)
  {
    var k := LastMatch(c.entries, name);
    if k == -1 then c else c.(entries := RemoveAt(c.entries, k))
  }

  /**
   * `get` as written: the first entry named `name` is returned; then the
   * last entry of that name is evicted and the returned one re-added. A
   * miss (-1 in the source) returns None.
   */
  function Get(c: Cache, name: string): (r: (Cache, Option<Entry>))
    requires c.Valid()
    ensures r.0.Valid() && r.0.maxlen == c.maxlen
    ensures r.1.None? <==> forall j :: 0 <= j < |c.entries| ==> c.entries[j].name != name
    ensures r.1.None? ==> r.0 == c
    ensures r.1.Some? ==> r.1.value.name == name && r.1.value in c.entries
    ensures r.1.Some? ==>
      exists i, k :: 0 <= i <= k < |c.entries| && c.entries[i] == r.1.value
                     && (forall j :: 0 <= j < i ==> c.entries[j].name != name)
                     && c.entries[k].name == name
                     && (forall j :: k < j < |c.entries| ==> c.entries[j].name != name)
                     && r.0.entries == RemoveAt(c.entries, k) + [r.1.value]
  {
    var i := FirstMatch(c.entries, name);
    if i == -1 then (c, None)
    else
      var e := c.entries[i];
      (Add(Evict(c, name), e), Some(e))
  }

  /** With unique names the first and the last match are the same entry. */
  lemma UniqueMatch(s: seq<Entry>, name: string)
    requires UniqueNames(s)
    ensures FirstMatch(s, name) == LastMatch(s, name)
  {
  }

  /**
   * With unique names a hit moves the entry to the back: the length is
   * unchanged and the other entries keep their order.
   */
  lemma GetMovesToBack(c: Cache, name: string)
    requires c.Valid() && UniqueNames(c.entries)
    requires exists j :: 0 <= j < |c.entries| && c.entries[j].name == name
    ensures var (d, e) := Get(c, name);
      e.Some? && e.value.name == name && |d.entries| == |c.entries|
      && exists k :: 0 <= k < |c.entries| && c.entries[k] == e.value
                     && d.entries == RemoveAt(c.entries, k) + [e.value]
  {
    var k := FirstMatch(c.entries, name);
    UniqueMatch(c.entries, name);
    assert Evict(c, name).entries == RemoveAt(c.entries, k);
  }

  /** `add` does not look for the name: adding a present name leaves two entries for it. */
  lemma AddDuplicates(c: Cache, e: Entry, k: nat)
    requires c.Valid()
    requires k < |c.entries| && c.entries[k].name == e.name
    requires |c.entries| < c.maxlen || 0 < k
    ensures !UniqueNames(Add(c, e).entries)
  {
    var d := Add(c, e).entries;
    if |c.entries| < c.maxlen {
      assert d[k].name == d[|d| - 1].name;
    } else {
      assert d[k - 1].name == d[|d| - 1].name;
    }
  }

  /**
   * The duplicate left by `add` confuses `get`: it returns the older entry,
   * evicts the newer one and re-adds the older, so the newer winrate is lost
   * and the older entry is held twice.
   */
  lemma GetLosesNewerEntry()
    ensures var old1, new1 := Entry("Ahri", 0.5), Entry("Ahri", 0.6);
      var c := Add(Add(Cache([], 10), old1), new1);
      c.entries == [old1, new1]
      && Get(c, "Ahri") == (Cache([old1, old1], 10), Some(old1))
  {
    var old1, new1 := Entry("Ahri", 0.5), Entry("Ahri", 0.6);
    TwoAdds(old1, new1, 10);
    GetOfPair(old1, new1, 10);
  }

  lemma TwoAdds(a: Entry, b: Entry, n: nat)
    requires 2 <= n
    ensures Add(Add(Cache([], n), a), b) == Cache([a, b], n)
  {
    assert Add(Cache([], n), a) == Cache([a], n);
  }

  /** Two entries of one name: `get` returns the older and leaves it twice. */
  lemma GetOfPair(a: Entry, b: Entry, n: nat)
    requires 2 <= n && a.name == b.name
    ensures Get(Cache([a, b], n), a.name) == (Cache([a, a], n), Some(a))
  {
    var c := Cache([a, b], n);
    assert c.entries[0].name == a.name;
    assert FirstMatch(c.entries, a.name) == 0;
    assert c.entries[1].name == a.name;
    assert LastMatch(c.entries, a.name) == 1;
    assert Evict(c, a.name) == Cache([a], n);
    assert Add(Cache([a], n), a) == Cache([a, a], n);
  }

  /** `get` as evidently intended: the entry found is the one moved to the back. */
  function GetFixed(c: Cache, name: string): (r: (Cache, Option<Entry>))
    requires c.Valid()
    ensures r.0.Valid() && r.0.maxlen == c.maxlen
    ensures multiset(r.0.entries) == multiset(c.entries)
    ensures r.1.None? <==> forall j :: 0 <= j < |c.entries| ==> c.entries[j].name != name
    ensures r.1.None? ==> r.0 == c
    ensures r.1.Some? ==>
      r.1.value.name == name
      && exists k :: 0 <= k < |c.entries| && c.entries[k] == r.1.value
                     && (forall j :: 0 <= j < k ==> c.entries[j].name != name)
                     && r.0.entries == RemoveAt(c.entries, k) + [r.1.value]
  {
    var i := FirstMatch(c.entries, name);
    if i == -1 then (c, None)
    else
      var e := c.entries[i];
      var d := c.(entries := RemoveAt(c.entries, i));
      assert |d.entries| < d.maxlen;
      assert Add(d, e).entries == d.entries + [e];
      assert multiset(d.entries + [e]) == multiset(c.entries);
      (Add(d, e), Some(e))
  }

  /** Where names are unique the fix changes nothing. */
  lemma GetFixedAgrees(c: Cache, name: string)
    requires c.Valid() && UniqueNames(c.entries)
    ensures GetFixed(c, name) == Get(c, name)
  {
    UniqueMatch(c.entries, name);
  }
}
