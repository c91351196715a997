/** The report's candidate list: whitelist filtering, descending sort by CPU usage,
    and truncation to the first TOP_K entries. */
module Ranker {
  import opened Config
  import opened Processes

  function Min(a: int, b: int): int {
    if a <= b then a else b
  }

  /** The readable, non-whitelisted processes of a snapshot, in enumeration order.
      Entries that failed to read are skipped. */
  function Eligible(entries: seq<Entry>): (r: seq<ProcessInfo>)
    ensures forall p :: multiset(r)[p] == if Whitelisted(p.name) then 0 else multiset(entries)[Listed(p)]
    ensures forall p :: p in r <==> Listed(p) in entries && !Whitelisted(p.name)
  {
    if entries == [] then []
    else
      assert entries == [entries[0]] + entries[1..];
      var rest := Eligible(entries[1..]);
      match entries[0]
      case Listed(p) => if Whitelisted(p.name) then rest else [p] + rest
      case Unreadable(_) => rest
  }

  predicate SortedDesc(s: seq<ProcessInfo>) {
    forall i, j :: 0 <= i < j < |s| ==> s[i].cpuPercent >= s[j].cpuPercent
  }

  /** Inserts `p` into a list, in front of the first entry it does not fall below. */
  function Insert(p: ProcessInfo, s: seq<ProcessInfo>): (r: seq<ProcessInfo>)
    ensures multiset(r) == multiset(s) + multiset{p}
    ensures |r| == |s| + 1
    ensures r[0] == p || (|s| > 0 && r[0] == s[0])
  {
    if s == [] || p.cpuPercent >= s[0].cpuPercent then [p] + s
    else
      assert s == [s[0]] + s[1..];
      [s[0]] + Insert(p, s[1..])
  }

  /** Inserting into a descending list keeps it descending. */
  lemma {:induction false} InsertKeepsOrder(p: ProcessInfo, s: seq<ProcessInfo>)
    requires SortedDesc(s)
    ensures SortedDesc(Insert(p, s))
  {
    if s != [] && p.cpuPercent < s[0].cpuPercent {
      InsertKeepsOrder(p, s[1..]);
      var rest := Insert(p, s[1..]);
      var r := Insert(p, s);
      assert r == [s[0]] + rest;
      assert rest[0].cpuPercent <= s[0].cpuPercent;
      forall i, j | 0 <= i < j < |r|
        ensures r[i].cpuPercent >= r[j].cpuPercent
      {
        assert r[j] == rest[j - 1];
        if i == 0 {
          assert rest[0].cpuPercent >= rest[j - 1].cpuPercent;
        } else {
          assert r[i] == rest[i - 1];
        }
      }
    }
  }

  /** Sorts by CPU usage, highest first. */
  function SortDesc(s: seq<ProcessInfo>): (r: seq<ProcessInfo>)
    ensures SortedDesc(r)
    ensures multiset(r) == multiset(s)
  {
    if s == [] then []
    else
      assert s == [s[0]] + s[1..];
      InsertKeepsOrder(s[0], SortDesc(s[1..]));
      Insert(s[0], SortDesc(s[1..]))
  }

  /** The first k entries of a descending list are a top-k: nothing left behind is
      busier than anything kept. */
  lemma {:induction false} PrefixOfSortedIsTop(s: seq<ProcessInfo>, k: nat)
    requires SortedDesc(s)
    requires k <= |s|
    ensures multiset(s[..k]) <= multiset(s)
    ensures forall p, q :: p in multiset(s) - multiset(s[..k]) && q in s[..k] ==> p.cpuPercent <= q.cpuPercent
  {
    assert s == s[..k] + s[k..];
    assert multiset(s) == multiset(s[..k]) + multiset(s[k..]);
    forall p, q | p in multiset(s) - multiset(s[..k]) && q in s[..k]
      ensures p.cpuPercent <= q.cpuPercent
    {
      assert p in multiset(s[k..]);
      var j :| 0 <= j < |s[k..]| && s[k..][j] == p;
      var i :| 0 <= i < k && s[..k][i] == q;
      assert s[i] == q && s[k + j] == p;
    }
  }

  /** Truncating the sorted list keeps only elements of the list it was sorted from. */
  lemma TruncatedSortFacts(e: seq<ProcessInfo>, k: nat)
    requires k == Min(TOP_K, |e|)
    ensures |SortDesc(e)| == |e|
    ensures forall p :: p in SortDesc(e)[..k] ==> p in e
    ensures multiset(SortDesc(e)[..k]) <= multiset(e)
    ensures forall p, q :: p in e && p !in SortDesc(e)[..k] && q in SortDesc(e)[..k] ==> p.cpuPercent <= q.cpuPercent
  {
    var sorted := SortDesc(e);
    assert |multiset(sorted)| == |multiset(e)|;
    PrefixOfSortedIsTop(sorted, k);
    forall p | p in sorted[..k]
      ensures p in e
    {
      assert p in multiset(sorted[..k]);
    }
    forall p, q | p in e && p !in sorted[..k] && q in sorted[..k]
      ensures p.cpuPercent <= q.cpuPercent
    {
      assert p in multiset(sorted) - multiset(sorted[..k]);
    }
  }

  /** The heavy-process list of one snapshot: the first min(TOP_K, n) entries of the
      eligible processes sorted highest first. */
  function Rank(entries: seq<Entry>): (r: seq<ProcessInfo>)
    ensures |r| == Min(TOP_K, |Eligible(entries)|)
    ensures SortedDesc(r)
  {
    var e := Eligible(entries);
    TruncatedSortFacts(e, Min(TOP_K, |e|));
    SortDesc(e)[..Min(TOP_K, |e|)]
  }

  /** The heavy list never holds a whitelisted name. */
  lemma RankExcludesWhitelisted(entries: seq<Entry>)
    ensures forall p :: p in Rank(entries) ==> !Whitelisted(p.name)
  {
    var e := Eligible(entries);
    TruncatedSortFacts(e, Min(TOP_K, |e|));
  }

  /** The heavy list holds only processes of the filtered snapshot, each at most as
      often as it occurs there. */
  lemma RankFromEligible(entries: seq<Entry>)
    ensures multiset(Rank(entries)) <= multiset(Eligible(entries))
  {
    var e := Eligible(entries);
    TruncatedSortFacts(e, Min(TOP_K, |e|));
  }

  /** The heavy list is a true top list: no filtered process left out uses more CPU
      than any process returned. */
  lemma RankIsTop(entries: seq<Entry>)
    ensures forall p, q :: p in Eligible(entries) && p !in Rank(entries) && q in Rank(entries) ==>
              p.cpuPercent <= q.cpuPercent
  {
    var e := Eligible(entries);
    TruncatedSortFacts(e, Min(TOP_K, |e|));
  }
}
