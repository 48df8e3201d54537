/**
  Preference values of ATS clients (src/ats/gnunet-service-ats_preferences.c): the scores each
  client gives to peers, their normalised form, and the per-peer totals given to the solver.
  Floating-point numbers are modelled as reals.
 */
module Preferences {
  import opened Common

  type Peer = nat
  type ClientId = nat

  const KINDS: nat := 2
  const AGING_FACTOR: real := 0.95
  const EPSILON: real := 0.01

  type Kind = k: nat | k < KINDS
  type Values = v: seq<real> | |v| == KINDS witness [0.0, 0.0]

  const ZERO: Values := [0.0, 0.0]

  /** What one client thinks of one peer: absolute and relative score for each kind. */
  datatype Entry = Entry(fAbs: Values, fRel: Values)

  type Prefs = map<Peer, Entry>

  datatype Client = Client(id: ClientId, prefs: Prefs)

  /** The total over all clients, and how many clients have an entry for the peer. */
  datatype Global = Global(fRel: Values, numClients: nat)

  // ----- Sums over clients -----

  function RelOf(c: Client, p: Peer, k: Kind): real {
    if p in c.prefs then c.prefs[p].fRel[k] else 0.0
  }

  /** The relative scores that all clients give to a peer, added up. */
  function Sum(cs: seq<Client>, p: Peer, k: Kind): real {
    if cs == [] then 0.0 else RelOf(cs[0], p, k) + Sum(cs[1..], p, k)
  }

  function Holders(cs: seq<Client>, p: Peer): nat {
    if cs == [] then 0 else (if p in cs[0].prefs then 1 else 0) + Holders(cs[1..], p)
  }

  lemma {:induction false} SumPut(cs: seq<Client>, i: nat, c: Client, p: Peer, k: Kind)
    requires i < |cs|
    ensures Sum(cs[i := c], p, k) == Sum(cs, p, k) - RelOf(cs[i], p, k) + RelOf(c, p, k)
  {
    if i == 0 {
      assert cs[i := c][1..] == cs[1..];
    } else {
      SumPut(cs[1..], i - 1, c, p, k);
      assert cs[i := c][1..] == cs[1..][i - 1 := c];
    }
  }

  lemma {:induction false} HoldersPut(cs: seq<Client>, i: nat, c: Client, p: Peer)
    requires i < |cs|
    ensures Holders(cs[i := c], p) + (if p in cs[i].prefs then 1 else 0)
         == Holders(cs, p) + (if p in c.prefs then 1 else 0)
  {
    if i == 0 {
      assert cs[i := c][1..] == cs[1..];
    } else {
      HoldersPut(cs[1..], i - 1, c, p);
      assert cs[i := c][1..] == cs[1..][i - 1 := c];
    }
  }

  lemma {:induction false} SumRemove(cs: seq<Client>, i: nat, p: Peer, k: Kind)
    requires i < |cs|
    ensures Sum(cs[..i] + cs[i + 1..], p, k) == Sum(cs, p, k) - RelOf(cs[i], p, k)
    ensures Holders(cs[..i] + cs[i + 1..], p) + (if p in cs[i].prefs then 1 else 0) == Holders(cs, p)
  {
    if i == 0 {
      assert cs[..i] + cs[i + 1..] == cs[1..];
    } else {
      SumRemove(cs[1..], i - 1, p, k);
      var rest := cs[1..][..i - 1] + cs[1..][i..];
      assert cs[..i] + cs[i + 1..] == [cs[0]] + rest;
      assert ([cs[0]] + rest)[1..] == rest;
    }
  }

  lemma {:induction false} NoHolders(cs: seq<Client>, p: Peer, k: Kind)
    requires forall i | 0 <= i < |cs| :: p !in cs[i].prefs
    ensures Holders(cs, p) == 0 && Sum(cs, p, k) == 0.0
  {
    if cs != [] {
      NoHolders(cs[1..], p, k);
    }
  }

  lemma {:induction false} SomeHolder(cs: seq<Client>, p: Peer)
    ensures Holders(cs, p) > 0 <==> exists i :: 0 <= i < |cs| && p in cs[i].prefs
  {
    if cs != [] {
      SomeHolder(cs[1..], p);
      if i :| 0 <= i < |cs[1..]| && p in cs[1..][i].prefs {
        assert p in cs[i + 1].prefs;
      }
      if i :| 0 < i < |cs| && p in cs[i].prefs {
        assert p in cs[1..][i - 1].prefs;
      }
    }
  }

  // ----- Sums over peers -----

  ghost function Total(m: map<Peer, real>): real
    decreases |m|
  {
    if m == map[] then 0.0
    else
      var p :| p in m;
      m[p] + Total(m - {p})
  }

  lemma {:induction false} TotalAt(m: map<Peer, real>, p: Peer)
    requires p in m
    ensures Total(m) == m[p] + Total(m - {p})
    decreases |m|
  {
    var q :| q in m && Total(m) == m[q] + Total(m - {q});
    if q != p {
      TotalAt(m - {q}, p);
      TotalAt(m - {p}, q);
      assert m - {q} - {p} == m - {p} - {q};
    }
  }

  /** x is f times a */
  predicate Scaled(a: real, f: real, x: real) {
    x == a * f
  }

  lemma ScaledSum(a: real, b: real, f: real, x: real, y: real)
    requires Scaled(a, f, x) && Scaled(b, f, y)
    ensures Scaled(a + b, f, x + y)
  {
  }

  lemma ScaledZero(f: real)
    ensures Scaled(0.0, f, 0.0)
  {
  }

  lemma {:induction false} TotalScaled(m: map<Peer, real>, n: map<Peer, real>, f: real)
    requires m.Keys == n.Keys && forall p | p in m :: Scaled(m[p], f, n[p])
    ensures Scaled(Total(m), f, Total(n))
    decreases |m|
  {
    if m == map[] {
      assert n == map[];
      ScaledZero(f);
    } else {
      var p :| p in m;
      TotalAt(m, p);
      TotalAt(n, p);
      var m', n' := m - {p}, n - {p};
      forall q | q in m' ensures Scaled(m'[q], f, n'[q]) {
        assert Scaled(m[q], f, n[q]);
      }
      TotalScaled(m', n', f);
      ScaledSum(m[p], Total(m'), f, n[p], Total(n'));
    }
  }

  lemma {:induction false} TotalNonNegative(m: map<Peer, real>)
    requires forall p | p in m :: m[p] >= 0.0
    ensures Total(m) >= 0.0 && forall p | p in m :: m[p] <= Total(m)
    decreases |m|
  {
    forall p | p in m ensures 0.0 <= m[p] <= Total(m) {
      TotalAt(m, p);
      TotalNonNegative(m - {p});
    }
    if m == map[] {
    } else {
      var p :| p in m;
      assert m[p] <= Total(m);
    }
  }

  /** Dropping peers and lowering values does not raise a total of non-negative values. */
  lemma {:induction false} TotalShrinks(m: map<Peer, real>, n: map<Peer, real>)
    requires n.Keys <= m.Keys && (forall p | p in n :: n[p] <= m[p]) && forall p | p in m :: m[p] >= 0.0
    ensures Total(n) <= Total(m)
    decreases |m|
  {
    if m == map[] {
      assert n == map[];
    } else {
      var p :| p in m;
      TotalAt(m, p);
      if p in n {
        TotalAt(n, p);
        TotalShrinks(m - {p}, n - {p});
      } else {
        TotalShrinks(m - {p}, n);
      }
    }
  }

  // ----- The counters -----

  /** Exactly the peers that some client has an entry for are listed, each with its number of clients. */
  ghost predicate Counted(cs: seq<Client>, peers: map<Peer, Global>) {
    forall p: Peer :: if Holders(cs, p) > 0 then p in peers && peers[p].numClients == Holders(cs, p)
                      else p !in peers
  }

  function Without(c: Client, p: Peer): Client {
    c.(prefs := c.prefs - {p})
  }

  function Released(peers: map<Peer, Global>, p: Peer): map<Peer, Global>
    requires p in peers && peers[p].numClients > 0
  {
    if peers[p].numClients == 1 then peers - {p}
    else peers[p := peers[p].(numClients := peers[p].numClients - 1)]
  }

  lemma HeldIsListed(cs: seq<Client>, peers: map<Peer, Global>, i: nat, p: Peer)
    requires Counted(cs, peers) && i < |cs| && p in cs[i].prefs
    ensures p in peers && peers[p].numClients == Holders(cs, p) > 0
  {
    SomeHolder(cs, p);
  }

  lemma ReleaseKeepsCount(cs: seq<Client>, peers: map<Peer, Global>, i: nat, p: Peer)
    requires Counted(cs, peers) && i < |cs| && p in cs[i].prefs
    ensures p in peers && peers[p].numClients > 0
    ensures Counted(cs[i := Without(cs[i], p)], Released(peers, p))
  {
    HeldIsListed(cs, peers, i, p);
    forall q: Peer
      ensures Holders(cs[i := Without(cs[i], p)], q) == Holders(cs, q) - (if q == p then 1 else 0)
    {
      HoldersPut(cs, i, Without(cs[i], p), q);
    }
  }

  // ----- Aging -----

  function Faded(a: real): real {
    if a > 0.0 then a * AGING_FACTOR else a
  }

  /** The value is no longer worth keeping. */
  predicate Cut(a: real) {
    Faded(a) <= EPSILON
  }

  function AgedAbs(a: real): real {
    if Cut(a) then 0.0 else Faded(a)
  }

  function AgedEntry(e: Entry): Entry {
    Entry([AgedAbs(e.fAbs[0]), AgedAbs(e.fAbs[1])],
          [if Cut(e.fAbs[0]) then 0.0 else e.fRel[0], if Cut(e.fAbs[1]) then 0.0 else e.fRel[1]])
  }

  predicate Dead(e: Entry) {
    Cut(e.fAbs[0]) && Cut(e.fAbs[1])
  }

  /** The entries of one client when the peers in `done` were aged. */
  function AgedPart(m: Prefs, done: set<Peer>): Prefs {
    map p | p in m && !(p in done && Dead(m[p])) :: if p in done then AgedEntry(m[p]) else m[p]
  }

  function Aged(c: Client): Client {
    c.(prefs := map p | p in c.prefs && !Dead(c.prefs[p]) :: AgedEntry(c.prefs[p]))
  }

  function AgedClients(cs: seq<Client>): (r: seq<Client>)
    ensures |r| == |cs|
  {
    seq(|cs|, i requires 0 <= i < |cs| => Aged(cs[i]))
  }

  /** The loop aged the clients before i, and the peers in `done` of client i. */
  ghost predicate AgedTo(was: seq<Client>, i: nat, done: set<Peer>, cs: seq<Client>) {
    |cs| == |was|
    && forall j | 0 <= j < |was| ::
         cs[j] == if j < i then Aged(was[j])
                  else if j == i then was[j].(prefs := AgedPart(was[j].prefs, done))
                  else was[j]
  }

  /** Some entry for the peer that was aged lost its value of that kind. */
  ghost predicate CutDone(was: seq<Client>, i: nat, done: set<Peer>, p: Peer, k: Kind) {
    exists j :: 0 <= j < |was| && (j < i || (j == i && p in done)) && p in was[j].prefs && Cut(was[j].prefs[p].fAbs[k])
  }

  /** A total is recomputed where a value was cut and kept elsewhere. */
  ghost predicate TracksAt(was: seq<Client>, before: map<Peer, Global>, i: nat, done: set<Peer>, cs: seq<Client>,
                           peers: map<Peer, Global>, p: Peer, k: Kind) {
    p in peers ==>
      p in before && peers[p].fRel[k] == if CutDone(was, i, done, p, k) then Sum(cs, p, k) else before[p].fRel[k]
  }

  ghost predicate Tracks(was: seq<Client>, before: map<Peer, Global>, i: nat, done: set<Peer>, cs: seq<Client>,
                         peers: map<Peer, Global>) {
    forall p: Peer, k: Kind :: TracksAt(was, before, i, done, cs, peers, p, k)
  }

  // ----- One step of aging: entry p of client i -----

  function WithEntry(c: Client, p: Peer, e: Entry): Client {
    c.(prefs := c.prefs[p := e])
  }

  /** The total of every kind that the entry lost is computed again. */
  function Retotalled(cs: seq<Client>, peers: map<Peer, Global>, p: Peer, e: Entry): map<Peer, Global>
    requires p in peers
  {
    var g := peers[p];
    peers[p := g.(fRel := [if Cut(e.fAbs[0]) then Sum(cs, p, 0) else g.fRel[0],
                           if Cut(e.fAbs[1]) then Sum(cs, p, 1) else g.fRel[1]])]
  }

  function AgedClient(c: Client, p: Peer): Client
    requires p in c.prefs
  {
    if Dead(c.prefs[p]) then Without(c, p) else WithEntry(c, p, AgedEntry(c.prefs[p]))
  }

  function AgedGlobal(cs: seq<Client>, peers: map<Peer, Global>, p: Peer, e: Entry): map<Peer, Global>
    requires p in peers && peers[p].numClients > 0
  {
    var after := Retotalled(cs, peers, p, e);
    if Dead(e) then Released(after, p) else after
  }

  lemma AgedPartStep(m: Prefs, done: set<Peer>, p: Peer)
    requires p in m && p !in done
    ensures p in AgedPart(m, done) && AgedPart(m, done)[p] == m[p]
    ensures AgedPart(m, done + {p})
         == if Dead(m[p]) then AgedPart(m, done) - {p} else AgedPart(m, done)[p := AgedEntry(m[p])]
  {
  }

  lemma AgedToStep(was: seq<Client>, i: nat, done: set<Peer>, cs: seq<Client>, p: Peer)
    requires AgedTo(was, i, done, cs) && i < |was| && p in was[i].prefs && p !in done
    ensures p in cs[i].prefs && cs[i].prefs[p] == was[i].prefs[p]
    ensures AgedTo(was, i, done + {p}, cs[i := AgedClient(cs[i], p)])
  {
    AgedPartStep(was[i].prefs, done, p);
  }

  lemma AgeKeepsCount(cs: seq<Client>, peers: map<Peer, Global>, i: nat, p: Peer, totals: seq<Client>)
    requires Counted(cs, peers) && i < |cs| && p in cs[i].prefs
    ensures p in peers && peers[p].numClients > 0
    ensures Counted(cs[i := AgedClient(cs[i], p)], AgedGlobal(totals, peers, p, cs[i].prefs[p]))
  {
    HeldIsListed(cs, peers, i, p);
    forall q: Peer
      ensures Holders(cs[i := AgedClient(cs[i], p)], q)
           == Holders(cs, q) - (if q == p && Dead(cs[i].prefs[p]) then 1 else 0)
    {
      HoldersPut(cs, i, AgedClient(cs[i], p), q);
    }
  }

  /** Losing the entry altogether, or keeping it with what it lost set to zero, is the same for totals. */
  lemma AgedSum(cs: seq<Client>, i: nat, p: Peer, q: Peer, k: Kind)
    requires i < |cs| && p in cs[i].prefs
    ensures var c, e := cs[i], cs[i].prefs[p];
            && Sum(cs[i := AgedClient(c, p)], q, k) == Sum(cs[i := WithEntry(c, p, AgedEntry(e))], q, k)
            && (q != p || !Cut(e.fAbs[k]) ==> Sum(cs[i := AgedClient(c, p)], q, k) == Sum(cs, q, k))
  {
    SumPut(cs, i, AgedClient(cs[i], p), q, k);
    SumPut(cs, i, WithEntry(cs[i], p, AgedEntry(cs[i].prefs[p])), q, k);
  }

  lemma CutDoneStep(was: seq<Client>, i: nat, done: set<Peer>, p: Peer, q: Peer, k: Kind)
    requires i < |was| && p in was[i].prefs
    ensures CutDone(was, i, done + {p}, q, k)
       <==> CutDone(was, i, done, q, k) || (q == p && Cut(was[i].prefs[p].fAbs[k]))
  {
  }

  lemma TracksStep(was: seq<Client>, before: map<Peer, Global>, i: nat, done: set<Peer>, cs: seq<Client>,
                   peers: map<Peer, Global>, p: Peer)
    requires AgedTo(was, i, done, cs) && i < |was| && p in was[i].prefs && p !in done
    requires p in cs[i].prefs && cs[i].prefs[p] == was[i].prefs[p] && p in peers && peers[p].numClients > 0
    requires Tracks(was, before, i, done, cs, peers)
    ensures var e, cs' := was[i].prefs[p], cs[i := AgedClient(cs[i], p)];
            Tracks(was, before, i, done + {p}, cs',
                   AgedGlobal(cs[i := WithEntry(cs[i], p, AgedEntry(e))], peers, p, e))
  {
    var e, cs' := was[i].prefs[p], cs[i := AgedClient(cs[i], p)];
    var totals := cs[i := WithEntry(cs[i], p, AgedEntry(e))];
    var peers' := AgedGlobal(totals, peers, p, e);
    forall q: Peer, k: Kind ensures TracksAt(was, before, i, done + {p}, cs', peers', q, k) {
      assert TracksAt(was, before, i, done, cs, peers, q, k);
      AgedSum(cs, i, p, q, k);
      CutDoneStep(was, i, done, p, q, k);
    }
  }

  lemma AgedToNext(was: seq<Client>, i: nat, cs: seq<Client>, before: map<Peer, Global>, peers: map<Peer, Global>)
    requires i < |was| && AgedTo(was, i, was[i].prefs.Keys, cs) && Tracks(was, before, i, was[i].prefs.Keys, cs, peers)
    ensures AgedTo(was, i + 1, {}, cs) && Tracks(was, before, i + 1, {}, cs, peers)
  {
    var next, none: set<Peer> := i + 1, {};
    assert AgedPart(was[i].prefs, was[i].prefs.Keys) == Aged(was[i]).prefs;
    forall j | 0 <= j < |was|
      ensures cs[j] == if j < i + 1 then Aged(was[j])
                       else if j == i + 1 then was[j].(prefs := AgedPart(was[j].prefs, {}))
                       else was[j]
    {
      assert AgedPart(was[j].prefs, {}) == was[j].prefs;
    }
    forall p: Peer, k: Kind ensures TracksAt(was, before, next, none, cs, peers, p, k) {
      assert TracksAt(was, before, i, was[i].prefs.Keys, cs, peers, p, k);
      assert CutDone(was, next, none, p, k) <==> CutDone(was, i, was[i].prefs.Keys, p, k);
    }
  }

  lemma AllDead(c: Client)
    ensures Aged(c).prefs == map[] <==> forall p | p in c.prefs :: Dead(c.prefs[p])
  {
    forall p | p in c.prefs ensures p in Aged(c).prefs <==> !Dead(c.prefs[p]) {
    }
  }

  lemma AgedToAll(was: seq<Client>, cs: seq<Client>)
    requires AgedTo(was, |was|, {}, cs)
    ensures cs == AgedClients(was)
  {
  }

  lemma AgedToNone(was: seq<Client>, peers: map<Peer, Global>)
    ensures AgedTo(was, 0, {}, was) && Tracks(was, peers, 0, {}, was, peers)
  {
    forall j | 0 <= j < |was| ensures was[j].(prefs := AgedPart(was[j].prefs, {})) == was[j] {
      assert AgedPart(was[j].prefs, {}) == was[j].prefs;
    }
  }

  function AgedKind(e: Entry, k: Kind): Entry {
    Entry(e.fAbs[k := AgedAbs(e.fAbs[k])], e.fRel[k := if Cut(e.fAbs[k]) then 0.0 else e.fRel[k]])
  }

  function SetTotal(peers: map<Peer, Global>, p: Peer, k: Kind, total: real): map<Peer, Global>
    requires p in peers
  {
    peers[p := peers[p].(fRel := peers[p].fRel[k := total])]
  }

  lemma TotalsOneByOne(peers: map<Peer, Global>, p: Peer, e: Entry, cs: seq<Client>, first: real)
    requires p in peers && first == Sum(cs, p, 0)
    ensures var a := if Cut(e.fAbs[0]) then SetTotal(peers, p, 0, first) else peers;
            Retotalled(cs, peers, p, e) == if Cut(e.fAbs[1]) then SetTotal(a, p, 1, Sum(cs, p, 1)) else a
  {
    var g := peers[p];
    var x, y := if Cut(e.fAbs[0]) then first else g.fRel[0], if Cut(e.fAbs[1]) then Sum(cs, p, 1) else g.fRel[1];
    var a := if Cut(e.fAbs[0]) then SetTotal(peers, p, 0, first) else peers;
    assert a[p].fRel == [x, g.fRel[1]];
    assert a[p].fRel[1 := y] == [x, y];
    assert a == peers[p := g.(fRel := [x, g.fRel[1]])];
    assert a[p := g.(fRel := [x, y])] == peers[p := g.(fRel := [x, y])];
  }

  lemma AgedBoth(e: Entry)
    ensures AgedKind(AgedKind(e, 0), 1) == AgedEntry(e)
  {
  }

  /** The first total was taken before the second kind was aged, which makes no difference. */
  lemma FirstTotal(cs: seq<Client>, i: nat, p: Peer, e: Entry)
    requires i < |cs| && p in cs[i].prefs && cs[i].prefs[p] == e
    ensures Sum(cs[i := WithEntry(cs[i], p, AgedKind(e, 0))], p, 0)
         == Sum(cs[i := WithEntry(cs[i], p, AgedEntry(e))], p, 0)
  {
    SumPut(cs, i, WithEntry(cs[i], p, AgedKind(e, 0)), p, 0);
    SumPut(cs, i, WithEntry(cs[i], p, AgedEntry(e)), p, 0);
  }

  /** The loop of age_values over the kinds: the entry, the clients and the listed peers after k kinds. */
  function EntryAfter(e: Entry, k: nat): Entry
    requires k <= KINDS
  {
    if k == 0 then e else if k == 1 then AgedKind(e, 0) else AgedEntry(e)
  }

  function LiveAfter(e: Entry, k: nat): nat
    requires k <= KINDS
  {
    (if k > 0 && !Cut(e.fAbs[0]) then 1 else 0) + (if k > 1 && !Cut(e.fAbs[1]) then 1 else 0)
  }

  function ClientsAfter(cs: seq<Client>, i: nat, p: Peer, e: Entry, k: nat): seq<Client>
    requires i < |cs| && k <= KINDS
  {
    cs[i := WithEntry(cs[i], p, EntryAfter(e, k))]
  }

  function PeersAfter(peers: map<Peer, Global>, cs: seq<Client>, i: nat, p: Peer, e: Entry, k: nat): map<Peer, Global>
    requires i < |cs| && p in peers && k <= KINDS
  {
    if k == 0 then peers
    else if k == 1 then
      if Cut(e.fAbs[0]) then SetTotal(peers, p, 0, Sum(ClientsAfter(cs, i, p, e, 1), p, 0)) else peers
    else Retotalled(ClientsAfter(cs, i, p, e, 2), peers, p, e)
  }

  lemma NoKindYet(cs: seq<Client>, i: nat, p: Peer, e: Entry)
    requires i < |cs| && p in cs[i].prefs && cs[i].prefs[p] == e
    ensures ClientsAfter(cs, i, p, e, 0) == cs
  {
    assert cs[i].prefs[p := e] == cs[i].prefs;
  }

  /** One kind more. */
  lemma KindStep(cs: seq<Client>, peers: map<Peer, Global>, i: nat, p: Peer, e: Entry, k: Kind)
    requires i < |cs| && p in cs[i].prefs && cs[i].prefs[p] == e && p in peers
    ensures var now, next := ClientsAfter(cs, i, p, e, k), ClientsAfter(cs, i, p, e, k + 1);
            var a, b := PeersAfter(peers, cs, i, p, e, k), PeersAfter(peers, cs, i, p, e, k + 1);
            && p in now[i].prefs && now[i].prefs[p].fAbs[k] == e.fAbs[k] && p in a
            && next == now[i := WithEntry(now[i], p, AgedKind(now[i].prefs[p], k))]
            && b == if Cut(e.fAbs[k]) then SetTotal(a, p, k, Sum(next, p, k)) else a
  {
    var now, x, y := ClientsAfter(cs, i, p, e, k), EntryAfter(e, k), EntryAfter(e, k + 1);
    AgedBoth(e);
    assert AgedKind(x, k) == y;
    assert cs[i].prefs[p := x][p := y] == cs[i].prefs[p := y];
    assert now[i := WithEntry(now[i], p, y)] == cs[i := WithEntry(cs[i], p, y)];
    if k == 1 {
      FirstTotal(cs, i, p, e);
      TotalsOneByOne(peers, p, e, ClientsAfter(cs, i, p, e, 2), Sum(ClientsAfter(cs, i, p, e, 1), p, 0));
    }
  }

  // ----- An update -----

  ghost function AbsMap(m: Prefs, k: Kind): (r: map<Peer, real>)
    ensures r.Keys == m.Keys
  {
    map p | p in m :: m[p].fAbs[k]
  }

  ghost function RelMap(m: Prefs, k: Kind): (r: map<Peer, real>)
    ensures r.Keys == m.Keys
  {
    map p | p in m :: m[p].fRel[k]
  }

  /** Every relative value of the kind becomes the share of the absolute value in the sum. */
  function Shares(m: Prefs, k: Kind, sum: real): (r: Prefs)
    requires sum != 0.0
    ensures r.Keys == m.Keys
  {
    map p | p in m :: m[p].(fRel := m[p].fRel[k := m[p].fAbs[k] / sum])
  }

  /** Position of the client, or the number of clients. */
  function FindClient(cs: seq<Client>, id: ClientId): (i: nat)
    ensures i <= |cs| && (i < |cs| ==> cs[i].id == id)
    ensures forall j | 0 <= j < i :: cs[j].id != id
  {
    if cs == [] || cs[0].id == id then 0 else 1 + FindClient(cs[1..], id)
  }

  function EntryFor(m: Prefs, p: Peer): Entry {
    if p in m then m[p] else Entry(ZERO, ZERO)
  }

  /** The entries of the client after a score was added, before they are normalised again. */
  function Scored(m: Prefs, p: Peer, k: Kind, score: real): Prefs {
    var e := EntryFor(m, p);
    m[p := e.(fAbs := e.fAbs[k := e.fAbs[k] + score])]
  }

  /** Each listed peer's total of the kind is the sum over the clients. */
  ghost predicate Agrees(cs: seq<Client>, peers: map<Peer, Global>, k: Kind) {
    forall p | p in peers :: peers[p].fRel[k] == Sum(cs, p, k)
  }

  function AllTotals(cs: seq<Client>, peers: map<Peer, Global>, k: Kind): (r: map<Peer, Global>)
    ensures r.Keys == peers.Keys
  {
    map p | p in peers :: peers[p].(fRel := peers[p].fRel[k := Sum(cs, p, k)])
  }

  lemma NewClientKeepsAll(cs: seq<Client>, id: ClientId, peers: map<Peer, Global>, k: Kind)
    ensures Counted(cs, peers) ==> Counted([Client(id, map[])] + cs, peers)
    ensures Agrees(cs, peers, k) ==> Agrees([Client(id, map[])] + cs, peers, k)
  {
    var cs' := [Client(id, map[])] + cs;
    assert cs'[1..] == cs;
    forall p: Peer ensures Holders(cs', p) == Holders(cs, p) && Sum(cs', p, k) == Sum(cs, p, k) {
    }
  }

  // ----- The three operations on values -----

  datatype State = State(cs: seq<Client>, peers: map<Peer, Global>)

  function Joined(cs: seq<Client>, id: ClientId): (r: seq<Client>)
    ensures FindClient(r, id) < |r|
  {
    if FindClient(cs, id) < |cs| then cs else [Client(id, map[])] + cs
  }

  /** The peer is listed, and counts the client that now has an entry for it. */
  function Listed(peers: map<Peer, Global>, m: Prefs, p: Peer): map<Peer, Global> {
    var g := if p in peers then peers[p] else Global(ZERO, 0);
    if p in m then peers else peers[p := g.(numClients := g.numClients + 1)]
  }

  /** The sum that an update divides by. */
  ghost function Divisor(s: State, id: ClientId, p: Peer, k: Kind, score: real): real {
    var cs := Joined(s.cs, id);
    Total(AbsMap(Scored(cs[FindClient(cs, id)].prefs, p, k, score), k))
  }

  ghost function Updated(s: State, id: ClientId, p: Peer, k: Kind, score: real): State {
    var cs := Joined(s.cs, id);
    var i := FindClient(cs, id);
    var m, sum := Scored(cs[i].prefs, p, k, score), Divisor(s, id, p, k, score);
    var cs' := cs[i := cs[i].(prefs := if sum == 0.0 then m else Shares(m, k, sum))];
    State(cs', AllTotals(cs', Listed(s.peers, cs[i].prefs, p), k))
  }

  function Remaining(cs: seq<Client>, i: nat): seq<Client>
    requires i < |cs|
  {
    cs[..i] + cs[i + 1..]
  }

  /** The counters of some peers go down by one; a peer that counts none goes. */
  function ReleasedAll(peers: map<Peer, Global>, ps: set<Peer>): map<Peer, Global> {
    map p | p in peers && !(p in ps && peers[p].numClients <= 1) ::
      if p in ps then peers[p].(numClients := peers[p].numClients - 1) else peers[p]
  }

  function Disconnected(s: State, i: nat): State
    requires i < |s.cs|
  {
    State(Remaining(s.cs, i), ReleasedAll(s.peers, s.cs[i].prefs.Keys))
  }

  ghost predicate CutAnywhere(cs: seq<Client>, p: Peer, k: Kind) {
    exists j :: 0 <= j < |cs| && p in cs[j].prefs && Cut(cs[j].prefs[p].fAbs[k])
  }

  ghost function AgedTotal(s: State, p: Peer, k: Kind): real
    requires p in s.peers
  {
    if CutAnywhere(s.cs, p, k) then Sum(AgedClients(s.cs), p, k) else s.peers[p].fRel[k]
  }

  ghost function AgedState(s: State): State {
    var cs := AgedClients(s.cs);
    State(cs, map p | p in s.peers && Holders(cs, p) > 0 ::
                Global([AgedTotal(s, p, 0), AgedTotal(s, p, 1)], Holders(cs, p)))
  }

  lemma AgedStateIs(s: State, t: State)
    requires t.cs == AgedClients(s.cs) && Counted(t.cs, t.peers)
    requires Tracks(s.cs, s.peers, |s.cs|, {}, t.cs, t.peers)
    ensures t == AgedState(s)
  {
    forall p: Peer ensures p in t.peers <==> p in AgedState(s).peers
                   ensures p in t.peers ==> t.peers[p] == AgedState(s).peers[p] {
      assert TracksAt(s.cs, s.peers, |s.cs|, {}, t.cs, t.peers, p, 0);
      assert TracksAt(s.cs, s.peers, |s.cs|, {}, t.cs, t.peers, p, 1);
      if p in t.peers {
        assert t.peers[p].fRel == [AgedTotal(s, p, 0), AgedTotal(s, p, 1)];
      }
    }
  }

  // ----- Counters -----

  lemma ScoreKeepsCount(cs: seq<Client>, peers: map<Peer, Global>, i: nat, p: Peer, m: Prefs)
    requires Counted(cs, peers) && i < |cs| && m.Keys == cs[i].prefs.Keys + {p}
    ensures Counted(cs[i := cs[i].(prefs := m)], Listed(peers, cs[i].prefs, p))
  {
    forall q: Peer
      ensures Holders(cs[i := cs[i].(prefs := m)], q)
           == Holders(cs, q) + (if q == p && p !in cs[i].prefs then 1 else 0)
    {
      HoldersPut(cs, i, cs[i].(prefs := m), q);
    }
    SomeHolder(cs, p);
  }

  lemma UpdateKeepsCount(s: State, id: ClientId, p: Peer, k: Kind, score: real)
    requires Counted(s.cs, s.peers)
    ensures var t := Updated(s, id, p, k, score);
            Counted(t.cs, t.peers)
  {
    var cs := Joined(s.cs, id);
    NewClientKeepsAll(s.cs, id, s.peers, k);
    var i := FindClient(cs, id);
    var t := Updated(s, id, p, k, score);
    ScoreKeepsCount(cs, s.peers, i, p, t.cs[i].prefs);
  }

  lemma DisconnectKeepsCount(s: State, i: nat)
    requires Counted(s.cs, s.peers) && i < |s.cs|
    ensures Counted(Disconnected(s, i).cs, Disconnected(s, i).peers)
  {
    forall p: Peer
      ensures Holders(Remaining(s.cs, i), p) == Holders(s.cs, p) - (if p in s.cs[i].prefs then 1 else 0)
    {
      SumRemove(s.cs, i, p, 0);
    }
  }

  ghost predicate DistinctIds(cs: seq<Client>) {
    forall i, j | 0 <= i < j < |cs| :: cs[i].id != cs[j].id
  }

  lemma UpdateKeepsDistinct(s: State, id: ClientId, p: Peer, k: Kind, score: real)
    requires DistinctIds(s.cs)
    ensures DistinctIds(Updated(s, id, p, k, score).cs)
  {
    var cs := Joined(s.cs, id);
    assert DistinctIds(cs);
    var t := Updated(s, id, p, k, score);
    assert forall i | 0 <= i < |cs| :: t.cs[i].id == cs[i].id;
  }

  lemma DisconnectKeepsDistinct(s: State, i: nat)
    requires DistinctIds(s.cs) && i < |s.cs|
    ensures DistinctIds(Disconnected(s, i).cs)
    ensures (forall j | 0 <= j < |s.cs| :: s.cs[j].prefs == map[]) ==>
              forall j | 0 <= j < |s.cs| - 1 :: Disconnected(s, i).cs[j].prefs == map[]
  {
    var rest := Remaining(s.cs, i);
    forall j | 0 <= j < |rest| ensures rest[j] == s.cs[if j < i then j else j + 1] {
    }
  }

  // ----- Agreement of the totals -----

  /** An update touches no relative value of another kind. */
  lemma UpdateKeepsOtherKinds(s: State, id: ClientId, p: Peer, k: Kind, score: real, j: Kind, q: Peer)
    requires j != k
    ensures var cs := Joined(s.cs, id);
            var i := FindClient(cs, id);
            RelOf(Updated(s, id, p, k, score).cs[i], q, j) == RelOf(cs[i], q, j)
  {
  }

  /** An update makes the totals of its kind agree and leaves those of other kinds in agreement. */
  lemma UpdateAgrees(s: State, id: ClientId, p: Peer, k: Kind, score: real, j: Kind)
    requires Counted(s.cs, s.peers)
    requires if j == k then Divisor(s, id, p, k, score) != 0.0 else Agrees(s.cs, s.peers, j)
    ensures var t := Updated(s, id, p, k, score);
            Agrees(t.cs, t.peers, j)
  {
    if j != k {
      var cs := Joined(s.cs, id);
      NewClientKeepsAll(s.cs, id, s.peers, j);
      var i := FindClient(cs, id);
      var t := Updated(s, id, p, k, score);
      forall q | q in t.peers ensures t.peers[q].fRel[j] == Sum(t.cs, q, j) {
        SumPut(cs, i, t.cs[i], q, j);
        UpdateKeepsOtherKinds(s, id, p, k, score, j, q);
        if q !in s.peers {
          SomeHolder(cs, q);
          NoHolders(cs, q, j);
        }
      }
    }
  }

  lemma {:induction false} UncutSum(cs: seq<Client>, p: Peer, k: Kind)
    requires !CutAnywhere(cs, p, k)
    ensures Sum(AgedClients(cs), p, k) == Sum(cs, p, k)
  {
    if cs != [] {
      assert AgedClients(cs)[1..] == AgedClients(cs[1..]);
      forall j | 0 <= j < |cs[1..]| && p in cs[1..][j].prefs ensures !Cut(cs[1..][j].prefs[p].fAbs[k]) {
        assert cs[1..][j] == cs[j + 1];
      }
      UncutSum(cs[1..], p, k);
      assert p in cs[0].prefs ==> !Cut(cs[0].prefs[p].fAbs[k]);
    }
  }

  /** Aging keeps the totals in agreement although it touches only some of them. */
  lemma AgingAgrees(s: State, k: Kind)
    requires Agrees(s.cs, s.peers, k)
    ensures Agrees(AgedState(s).cs, AgedState(s).peers, k)
  {
    var t := AgedState(s);
    forall p | p in t.peers ensures t.peers[p].fRel[k] == Sum(t.cs, p, k) {
      if !CutAnywhere(s.cs, p, k) {
        UncutSum(s.cs, p, k);
      }
    }
  }

  /** A disconnect keeps them exactly when the client gave nothing to the peers it shared with others. */
  lemma DisconnectAgrees(s: State, i: nat, k: Kind)
    requires i < |s.cs| && Counted(s.cs, s.peers) && Agrees(s.cs, s.peers, k)
    ensures Agrees(Disconnected(s, i).cs, Disconnected(s, i).peers, k)
       <==> forall p | p in s.cs[i].prefs && Holders(s.cs, p) > 1 :: s.cs[i].prefs[p].fRel[k] == 0.0
  {
    var t, c := Disconnected(s, i), s.cs[i];
    forall p: Peer
      ensures Sum(t.cs, p, k) == Sum(s.cs, p, k) - RelOf(c, p, k)
      ensures p in c.prefs ==> p in s.peers && s.peers[p].numClients == Holders(s.cs, p)
      ensures p in t.peers ==> p in s.peers && t.peers[p].fRel[k] == Sum(s.cs, p, k)
    {
      SumRemove(s.cs, i, p, k);
      SomeHolder(s.cs, p);
    }
    if forall p | p in c.prefs && Holders(s.cs, p) > 1 :: c.prefs[p].fRel[k] == 0.0 {
      forall p | p in t.peers ensures t.peers[p].fRel[k] == Sum(t.cs, p, k) {
        assert p in c.prefs ==> Holders(s.cs, p) > 1;
      }
    }
    if Agrees(t.cs, t.peers, k) {
      forall p | p in c.prefs && Holders(s.cs, p) > 1 ensures c.prefs[p].fRel[k] == 0.0 {
        assert p in t.peers;
      }
    }
  }

  lemma TwoClients(a: Client, b: Client, p: Peer, k: Kind)
    ensures Sum([a, b], p, k) == RelOf(a, p, k) + RelOf(b, p, k)
    ensures Holders([a, b], p) == (if p in a.prefs then 1 else 0) + (if p in b.prefs then 1 else 0)
  {
    assert [a, b][1..] == [b] && [b][1..] == [];
    assert Sum([b], p, k) == RelOf(b, p, k) + Sum([], p, k);
    assert Holders([b], p) == (if p in b.prefs then 1 else 0) + Holders([], p);
  }

  // ----- Every run -----

  datatype Step = Update(id: ClientId, p: Peer, k: Kind, score: real) | Age | Disconnect(id: ClientId)

  ghost function Apply(s: State, e: Step): State {
    match e
    case Update(id, p, k, score) => Updated(s, id, p, k, score)
    case Age => AgedState(s)
    case Disconnect(id) => var i := FindClient(s.cs, id); if i < |s.cs| then Disconnected(s, i) else s
  }

  const EMPTY: State := State([], map[])

  ghost predicate Runs(s: State, es: seq<Step>, t: State)
    decreases |es|
  {
    if es == [] then s == t else Runs(Apply(s, es[0]), es[1..], t)
  }

  /** No update of the kind divides by zero, so that all its relative values and totals are numbers. */
  ghost predicate NeverDivides(s: State, es: seq<Step>, k: Kind)
    decreases |es|
  {
    es != [] ==>
      && (es[0].Update? && es[0].k == k ==> Divisor(s, es[0].id, es[0].p, k, es[0].score) != 0.0)
      && NeverDivides(Apply(s, es[0]), es[1..], k)
  }

  /** What the client scored so far. */
  function ScoresOf(s: State, id: ClientId): Prefs {
    var i := FindClient(s.cs, id);
    if i < |s.cs| then s.cs[i].prefs else map[]
  }

  /** Without negative scores an update divides by zero exactly when all the client's scores of the kind are zero. */
  lemma DividesByZeroIff(s: State, id: ClientId, p: Peer, k: Kind, score: real)
    requires score >= 0.0 && forall q | q in ScoresOf(s, id) :: ScoresOf(s, id)[q].fAbs[k] >= 0.0
    ensures Divisor(s, id, p, k, score) == 0.0
       <==> score == 0.0 && forall q | q in ScoresOf(s, id) :: ScoresOf(s, id)[q].fAbs[k] == 0.0
  {
    var m, n := ScoresOf(s, id), Scored(ScoresOf(s, id), p, k, score);
    assert Joined(s.cs, id)[FindClient(Joined(s.cs, id), id)].prefs == m;
    TotalNonNegative(AbsMap(n, k));
    if score == 0.0 && forall q | q in m :: m[q].fAbs[k] == 0.0 {
      TotalZero(AbsMap(n, k));
    }
    if Divisor(s, id, p, k, score) == 0.0 {
      assert AbsMap(n, k)[p] == 0.0;
      forall q | q in m ensures m[q].fAbs[k] == 0.0 {
        assert AbsMap(n, k)[q] == 0.0;
      }
    }
  }

  /** A client whose first score is zero. */
  lemma FirstScoreOfZero(id: ClientId, p: Peer, k: Kind)
    ensures Divisor(EMPTY, id, p, k, 0.0) == 0.0
  {
    DividesByZeroIff(EMPTY, id, p, k, 0.0);
  }

  lemma AgingKeepsCount(s: State)
    requires Counted(s.cs, s.peers)
    ensures Counted(AgedState(s).cs, AgedState(s).peers)
  {
    var cs := AgedClients(s.cs);
    forall p: Peer ensures Holders(cs, p) > 0 ==> Holders(s.cs, p) > 0 {
      SomeHolder(s.cs, p);
      SomeHolder(cs, p);
      if i :| 0 <= i < |cs| && p in cs[i].prefs {
        assert p in s.cs[i].prefs;
      }
    }
  }

  lemma StepKeepsCount(s: State, e: Step)
    requires Counted(s.cs, s.peers)
    ensures Counted(Apply(s, e).cs, Apply(s, e).peers)
  {
    match e
    case Update(id, p, k, score) => UpdateKeepsCount(s, id, p, k, score);
    case Age => AgingKeepsCount(s);
    case Disconnect(id) =>
      var i := FindClient(s.cs, id);
      if i < |s.cs| {
        DisconnectKeepsCount(s, i);
      }
  }

  /** In every run the listed peers are those that some client scored, with the right count. */
  lemma {:induction false} RunKeepsCount(s: State, es: seq<Step>, t: State)
    requires Counted(s.cs, s.peers) && Runs(s, es, t)
    ensures Counted(t.cs, t.peers)
    decreases |es|
  {
    if es != [] {
      StepKeepsCount(s, es[0]);
      RunKeepsCount(Apply(s, es[0]), es[1..], t);
    }
  }

  lemma {:induction false} RunKeepsAgreement(s: State, es: seq<Step>, t: State, k: Kind)
    requires Counted(s.cs, s.peers) && Agrees(s.cs, s.peers, k) && Runs(s, es, t) && NeverDivides(s, es, k)
    requires forall i | 0 <= i < |es| :: !es[i].Disconnect?
    ensures Agrees(t.cs, t.peers, k)
    decreases |es|
  {
    if es != [] {
      StepKeepsCount(s, es[0]);
      match es[0] {
        case Update(id, p, j, score) => UpdateAgrees(s, id, p, j, score, k);
        case Age => AgingAgrees(s, k);
      }
      RunKeepsAgreement(Apply(s, es[0]), es[1..], t, k);
    }
  }

  /** The clients whose last update of the kind divided by zero: their values of it are not numbers. */
  ghost function DirtyStep(s: State, e: Step, k: Kind, dirty: set<ClientId>): set<ClientId> {
    match e
    case Update(id, p, j, score) =>
      if j != k then dirty
      else if Divisor(s, id, p, k, score) == 0.0 then dirty + {id}
      else dirty - {id}
    case Age => dirty
    case Disconnect(id) => dirty - {id}
  }

  ghost function Dirty(s: State, es: seq<Step>, k: Kind, dirty: set<ClientId>): set<ClientId>
    decreases |es|
  {
    if es == [] then dirty else Dirty(Apply(s, es[0]), es[1..], k, DirtyStep(s, es[0], k, dirty))
  }

  /** Neither an update of the kind nor a disconnect. */
  predicate LeavesKind(e: Step, k: Kind) {
    !e.Disconnect? && (e.Update? ==> e.k != k)
  }

  lemma {:induction false} LeftAlone(s: State, es: seq<Step>, k: Kind, dirty: set<ClientId>)
    requires forall i | 0 <= i < |es| :: LeavesKind(es[i], k)
    ensures NeverDivides(s, es, k) && Dirty(s, es, k, dirty) == dirty
    decreases |es|
  {
    if es != [] {
      assert LeavesKind(es[0], k);
      LeftAlone(Apply(s, es[0]), es[1..], k, dirty);
    }
  }

  /** The state before step u. */
  lemma {:induction false} SplitRun(s: State, es: seq<Step>, t: State, u: nat, k: Kind, dirty: set<ClientId>)
    returns (m: State, d: set<ClientId>)
    requires Runs(s, es, t) && u < |es|
    ensures Runs(s, es[..u], m) && Runs(Apply(m, es[u]), es[u + 1..], t)
    ensures Dirty(s, es, k, dirty) == Dirty(Apply(m, es[u]), es[u + 1..], k, DirtyStep(m, es[u], k, d))
    decreases |es|
  {
    if u == 0 {
      m, d := s, dirty;
    } else {
      m, d := SplitRun(Apply(s, es[0]), es[1..], t, u - 1, k, DirtyStep(s, es[0], k, dirty));
      assert es[..u][1..] == es[1..][..u - 1];
      assert es[1..][u..] == es[u + 1..];
    }
  }

  /**
    From the start, after the last update of a kind that kind's totals agree until a client
    disconnects, as long as no client's last update of the kind divided by zero.
   */
  lemma AgreementAfterUpdate(es: seq<Step>, t: State, u: nat, k: Kind)
    requires Runs(EMPTY, es, t) && u < |es| && es[u].Update? && es[u].k == k
    requires forall i | u < i < |es| :: LeavesKind(es[i], k)
    requires Dirty(EMPTY, es, k, {}) == {}
    ensures Agrees(t.cs, t.peers, k)
  {
    var s, d := SplitRun(EMPTY, es, t, u, k, {});
    var e, after := es[u], es[u + 1..];
    var v := Apply(s, e);
    LeftAlone(v, after, k, DirtyStep(s, e, k, d));
    assert Divisor(s, e.id, e.p, k, e.score) != 0.0;
    RunKeepsCount(EMPTY, es[..u], s);
    StepKeepsCount(s, e);
    UpdateAgrees(s, e.id, e.p, k, e.score, k);
    RunKeepsAgreement(v, after, t, k);
  }

  // ----- The scores as the history of calls gives them -----

  /** The client's score of the kind for the peer; none is zero. */
  function AbsOf(s: State, id: ClientId, p: Peer, k: Kind): real {
    var m := ScoresOf(s, id);
    if p in m then m[p].fAbs[k] else 0.0
  }

  /** What a round of aging leaves of a score: 95 percent, or nothing below a 95th. */
  function Decayed(a: real): real {
    if 95.0 * a <= 1.0 then 0.0 else 19.0 * a / 20.0
  }

  function ScoreStep(e: Step, id: ClientId, p: Peer, k: Kind, a: real): real {
    match e
    case Update(x, q, j, score) => if x == id && q == p && j == k then a + score else a
    case Age => Decayed(a)
    case Disconnect(x) => if x == id then 0.0 else a
  }

  /** A score after a run of calls. */
  function ScoreAfter(es: seq<Step>, id: ClientId, p: Peer, k: Kind, a: real): real
    decreases |es|
  {
    if es == [] then a else ScoreAfter(es[1..], id, p, k, ScoreStep(es[0], id, p, k, a))
  }

  lemma FoundAt(cs: seq<Client>, i: nat)
    requires DistinctIds(cs) && i < |cs|
    ensures FindClient(cs, cs[i].id) == i
  {
  }

  lemma SameScores(s: State, t: State, id: ClientId)
    requires |s.cs| == |t.cs| && forall i | 0 <= i < |s.cs| :: s.cs[i].id == t.cs[i].id
    ensures FindClient(s.cs, id) == FindClient(t.cs, id)
  {
    assert FindClient(s.cs, id) <= |s.cs| && FindClient(t.cs, id) <= |t.cs|;
  }

  lemma JoinedScores(s: State, id: ClientId, x: ClientId)
    ensures ScoresOf(s.(cs := Joined(s.cs, id)), x) == ScoresOf(s, x)
  {
    var cs := Joined(s.cs, id);
    if FindClient(s.cs, id) == |s.cs| {
      assert cs[1..] == s.cs;
      assert FindClient(cs, x) == if x == id then 0 else 1 + FindClient(s.cs, x);
    }
  }

  /** A score is added to what the client gave the peer before, and to nothing else. */
  lemma UpdateAdds(s: State, id: ClientId, p: Peer, k: Kind, score: real, x: ClientId, q: Peer, j: Kind)
    ensures AbsOf(Updated(s, id, p, k, score), x, q, j)
         == AbsOf(s, x, q, j) + (if x == id && q == p && j == k then score else 0.0)
  {
    var u, t := s.(cs := Joined(s.cs, id)), Updated(s, id, p, k, score);
    JoinedScores(s, id, x);
    SameScores(u, t, x);
  }

  lemma DecayedIs(a: real)
    ensures AgedAbs(a) == Decayed(a) && (Cut(a) <==> Decayed(a) == 0.0)
  {
  }

  lemma AgingDecays(s: State, x: ClientId, q: Peer, j: Kind)
    ensures AbsOf(AgedState(s), x, q, j) == Decayed(AbsOf(s, x, q, j))
  {
    SameScores(s, AgedState(s), x);
    var m := ScoresOf(s, x);
    if q in m {
      DecayedIs(m[q].fAbs[j]);
    }
  }

  lemma NotFound(cs: seq<Client>, id: ClientId)
    requires forall n | 0 <= n < |cs| :: cs[n].id != id
    ensures FindClient(cs, id) == |cs|
  {
  }

  /** Where the clients stand after one is gone. */
  lemma RemainingAt(cs: seq<Client>, i: nat, n: nat)
    requires i < |cs| && n < |cs| - 1
    ensures Remaining(cs, i)[n] == cs[if n < i then n else n + 1]
  {
  }

  lemma GoneScores(s: State, i: nat)
    requires DistinctIds(s.cs) && i < |s.cs|
    ensures ScoresOf(Disconnected(s, i), s.cs[i].id) == map[]
  {
    var rest := Remaining(s.cs, i);
    forall n | 0 <= n < |rest| ensures rest[n].id != s.cs[i].id {
      RemainingAt(s.cs, i, n);
    }
    NotFound(rest, s.cs[i].id);
  }

  lemma KeptScores(s: State, i: nat, x: ClientId)
    requires DistinctIds(s.cs) && i < |s.cs| && x != s.cs[i].id
    ensures ScoresOf(Disconnected(s, i), x) == ScoresOf(s, x)
  {
    var rest, f := Remaining(s.cs, i), FindClient(s.cs, x);
    if f == |s.cs| {
      forall n | 0 <= n < |rest| ensures rest[n].id != x {
        RemainingAt(s.cs, i, n);
      }
      NotFound(rest, x);
    } else {
      var n := if f < i then f else f - 1;
      RemainingAt(s.cs, i, n);
      DisconnectKeepsDistinct(s, i);
      FoundAt(rest, n);
    }
  }

  lemma DisconnectForgets(s: State, i: nat, x: ClientId, q: Peer, j: Kind)
    requires DistinctIds(s.cs) && i < |s.cs|
    ensures AbsOf(Disconnected(s, i), x, q, j) == if x == s.cs[i].id then 0.0 else AbsOf(s, x, q, j)
  {
    if x == s.cs[i].id {
      GoneScores(s, i);
    } else {
      KeptScores(s, i, x);
    }
  }

  lemma StepScores(s: State, e: Step, id: ClientId, p: Peer, k: Kind)
    requires DistinctIds(s.cs)
    ensures DistinctIds(Apply(s, e).cs) && AbsOf(Apply(s, e), id, p, k) == ScoreStep(e, id, p, k, AbsOf(s, id, p, k))
  {
    match e
    case Update(x, q, j, score) =>
      UpdateKeepsDistinct(s, x, q, j, score);
      UpdateAdds(s, x, q, j, score, id, p, k);
    case Age => AgingDecays(s, id, p, k);
    case Disconnect(x) =>
      var i := FindClient(s.cs, x);
      if i < |s.cs| {
        DisconnectKeepsDistinct(s, i);
        DisconnectForgets(s, i, id, p, k);
      } else if x == id {
        assert ScoresOf(s, id) == map[];
      }
  }

  lemma {:induction false} RunScores(s: State, es: seq<Step>, t: State, id: ClientId, p: Peer, k: Kind)
    requires DistinctIds(s.cs) && Runs(s, es, t)
    ensures AbsOf(t, id, p, k) == ScoreAfter(es, id, p, k, AbsOf(s, id, p, k))
    decreases |es|
  {
    if es != [] {
      StepScores(s, es[0], id, p, k);
      RunScores(Apply(s, es[0]), es[1..], t, id, p, k);
    }
  }

  /** In every run from the start each score is what the client's calls, aging and disconnects make of it. */
  lemma ScoresAreHistory(es: seq<Step>, t: State, id: ClientId, p: Peer, k: Kind)
    requires Runs(EMPTY, es, t)
    ensures AbsOf(t, id, p, k) == ScoreAfter(es, id, p, k, 0.0)
  {
    RunScores(EMPTY, es, t, id, p, k);
  }

  // ----- Runs that show it -----

  lemma TwoSteps(d: Step, e: Step, one: State, s: State)
    requires one == Apply(EMPTY, d) && s == Apply(one, e)
    ensures Runs(EMPTY, [d, e], s)
  {
    assert [d, e][1..] == [e] && [e][1..] == [];
    assert Runs(s, [], s) && Runs(one, [e], s);
  }

  lemma WholeShare(a: real)
    requires a != 0.0
    ensures a / a == 1.0
  {
  }

  /** The first score of a client for a kind makes the whole share. */
  lemma FirstScore(p: Peer, a: real)
    requires a != 0.0
    ensures var m := Scored(map[], p, 0, a);
            && Total(AbsMap(m, 0)) == a
            && Shares(m, 0, a) == map[p := Entry([a, 0.0], [1.0, 0.0])]
  {
    var m := Scored(map[], p, 0, a);
    TotalAt(AbsMap(m, 0), p);
    assert AbsMap(m, 0) - {p} == map[];
    assert m[p].fAbs == [a, 0.0];
    WholeShare(a);
    assert ZERO[0 := a / a] == [1.0, 0.0];
  }

  lemma FirstUpdate(s: State, id: ClientId, a: real, e: Entry, peers: map<Peer, Global>)
    requires FindClient(s.cs, id) == |s.cs| && a != 0.0 && e == Entry([a, 0.0], [1.0, 0.0])
    requires peers == Listed(s.peers, map[], 7)
    ensures var cs := [Client(id, map[7 := e])] + s.cs;
            Updated(s, id, 7, 0, a) == State(cs, AllTotals(cs, peers, 0)) && Divisor(s, id, 7, 0, a) == a
  {
    FirstScore(7, a);
    var cs := Joined(s.cs, id);
    assert cs[0 := Client(id, map[7 := e])] == [Client(id, map[7 := e])] + s.cs;
  }

  /** Two clients that score the same peer: when one goes, the peer keeps the total of both. */
  lemma DisconnectLeavesStaleTotal() returns (s: State)
    ensures Runs(EMPTY, [Update(1, 7, 0, 1.0), Update(2, 7, 0, 1.0)], s)
    ensures Counted(s.cs, s.peers) && Agrees(s.cs, s.peers, 0) && s.cs != []
    ensures !Agrees(Disconnected(s, 0).cs, Disconnected(s, 0).peers, 0)
  {
    var e := Entry([1.0, 0.0], [1.0, 0.0]);
    var es := [Update(1, 7, 0, 1.0), Update(2, 7, 0, 1.0)];
    var one := Updated(EMPTY, 1, 7, 0, 1.0);
    FirstUpdate(EMPTY, 1, 1.0, e, Listed(map[], map[], 7));
    assert one.cs == [Client(1, map[7 := e])];
    s := Updated(one, 2, 7, 0, 1.0);
    FirstUpdate(one, 2, 1.0, e, Listed(one.peers, map[], 7));
    assert s.cs == [Client(2, map[7 := e]), Client(1, map[7 := e])];
    TwoSteps(es[0], es[1], one, s);
    RunKeepsCount(EMPTY, es, s);
    UpdateKeepsCount(EMPTY, 1, 7, 0, 1.0);
    UpdateAgrees(one, 2, 7, 0, 1.0, 0);
    TwoClients(s.cs[0], s.cs[1], 7, 0);
    DisconnectAgrees(s, 0, 0);
    assert 7 in s.cs[0].prefs;
  }

  // ----- Normalisation -----

  lemma DivideIsScale(a: real, s: real)
    requires s != 0.0
    ensures Scaled(a, 1.0 / s, a / s) && Scaled(s, 1.0 / s, 1.0)
  {
  }

  /** The relative values that an update gives to a client's peers add up to one. */
  lemma SharesAddToOne(m: Prefs, k: Kind)
    requires Total(AbsMap(m, k)) != 0.0
    ensures Total(RelMap(Shares(m, k, Total(AbsMap(m, k))), k)) == 1.0
  {
    var sum := Total(AbsMap(m, k));
    var rel := RelMap(Shares(m, k, sum), k);
    forall p | p in m ensures Scaled(AbsMap(m, k)[p], 1.0 / sum, rel[p]) {
      DivideIsScale(m[p].fAbs[k], sum);
    }
    TotalScaled(AbsMap(m, k), rel, 1.0 / sum);
    DivideIsScale(sum, sum);
  }

  lemma ShareOf(a: real, s: real)
    requires 0.0 <= a <= s && s > 0.0
    ensures 0.0 <= a / s <= 1.0
  {
  }

  /** Without negative scores each of them lies between zero and one. */
  lemma SharesInUnit(m: Prefs, k: Kind, p: Peer)
    requires p in m && Total(AbsMap(m, k)) != 0.0 && forall q | q in m :: m[q].fAbs[k] >= 0.0
    ensures 0.0 <= Shares(m, k, Total(AbsMap(m, k)))[p].fRel[k] <= 1.0
  {
    TotalNonNegative(AbsMap(m, k));
    assert AbsMap(m, k)[p] == m[p].fAbs[k];
    ShareOf(m[p].fAbs[k], Total(AbsMap(m, k)));
  }

  /** Aging never raises the sum of a client's relative values. */
  lemma AgingShrinksShares(c: Client, k: Kind)
    requires forall p | p in c.prefs :: c.prefs[p].fRel[k] >= 0.0
    ensures Total(RelMap(Aged(c).prefs, k)) <= Total(RelMap(c.prefs, k))
  {
    TotalShrinks(RelMap(c.prefs, k), RelMap(Aged(c).prefs, k));
  }

  ghost predicate Partition(m: map<Peer, real>, a: map<Peer, real>, b: map<Peer, real>) {
    && m.Keys == a.Keys + b.Keys && a.Keys !! b.Keys
    && (forall p | p in a :: m[p] == a[p])
    && (forall p | p in b :: m[p] == b[p])
  }

  lemma PartitionStep(m: map<Peer, real>, a: map<Peer, real>, b: map<Peer, real>, p: Peer)
    requires Partition(m, a, b) && p in a
    ensures Partition(m - {p}, a - {p}, b) && m[p] == a[p]
  {
  }

  lemma {:induction false} TotalPartition(m: map<Peer, real>, a: map<Peer, real>, b: map<Peer, real>)
    requires Partition(m, a, b)
    ensures Total(m) == Total(a) + Total(b)
    decreases |a|
  {
    if a == map[] {
      assert m == b;
    } else {
      var p :| p in a;
      PartitionStep(m, a, b, p);
      var m', a' := m - {p}, a - {p};
      TotalPartition(m', a', b);
      assert Total(m) == m[p] + Total(m') by { TotalAt(m, p); }
      assert Total(a) == a[p] + Total(a') by { TotalAt(a, p); }
    }
  }

  lemma {:induction false} TotalZero(m: map<Peer, real>)
    requires forall p | p in m :: m[p] == 0.0
    ensures Total(m) == 0.0
    decreases |m|
  {
    if m != map[] {
      var p :| p in m;
      TotalAt(m, p);
      TotalZero(m - {p});
    }
  }

  /** The absolute values of a kind that aging keeps, or that it cuts. */
  ghost function AbsPart(m: Prefs, k: Kind, cut: bool): map<Peer, real> {
    map p | p in m && Cut(m[p].fAbs[k]) == cut :: m[p].fAbs[k]
  }

  lemma AbsParts(m: Prefs, k: Kind)
    ensures Total(AbsMap(m, k)) == Total(AbsPart(m, k, false)) + Total(AbsPart(m, k, true))
  {
    TotalPartition(AbsMap(m, k), AbsPart(m, k, false), AbsPart(m, k, true));
  }

  ghost function AgedKept(m: Prefs, k: Kind): map<Peer, real> {
    map p | p in m && !Cut(m[p].fAbs[k]) :: AgedAbs(m[p].fAbs[k])
  }

  lemma AgedAbsKept(c: Client, k: Kind)
    ensures Total(AbsMap(Aged(c).prefs, k)) == Total(AgedKept(c.prefs, k))
  {
    var m, aged := c.prefs, Aged(c).prefs;
    var rest := map p | p in aged && Cut(m[p].fAbs[k]) :: 0.0;
    assert Partition(AbsMap(aged, k), AgedKept(m, k), rest);
    TotalPartition(AbsMap(aged, k), AgedKept(m, k), rest);
    TotalZero(rest);
  }

  /** Aging multiplies what it keeps. */
  lemma AgedAbsTotal(c: Client, k: Kind)
    requires forall p | p in c.prefs :: c.prefs[p].fAbs[k] >= 0.0
    ensures Scaled(Total(AbsPart(c.prefs, k, false)), AGING_FACTOR, Total(AbsMap(Aged(c).prefs, k)))
  {
    AgedAbsKept(c, k);
    var kept := AgedKept(c.prefs, k);
    forall p | p in kept ensures Scaled(AbsPart(c.prefs, k, false)[p], AGING_FACTOR, kept[p]) {
    }
    TotalScaled(AbsPart(c.prefs, k, false), kept, AGING_FACTOR);
  }

  /** Nothing positive is cut. */
  ghost predicate CutsNothing(m: Prefs, k: Kind) {
    forall p | p in m && Cut(m[p].fAbs[k]) :: m[p].fAbs[k] == 0.0
  }

  lemma CutTotal(m: Prefs, k: Kind)
    requires forall p | p in m :: m[p].fAbs[k] >= 0.0
    ensures Total(AbsPart(m, k, true)) >= 0.0
    ensures Total(AbsPart(m, k, true)) == 0.0 <==> CutsNothing(m, k)
  {
    var cut := AbsPart(m, k, true);
    TotalNonNegative(cut);
    if CutsNothing(m, k) {
      TotalZero(cut);
    } else {
      var p :| p in m && Cut(m[p].fAbs[k]) && m[p].fAbs[k] != 0.0;
      assert p in cut && cut[p] > 0.0;
    }
  }

  /** Each relative value is the share of the absolute one, as an update leaves it. */
  ghost predicate Proportional(m: Prefs, k: Kind) {
    forall p | p in m :: Scaled(Total(AbsMap(m, k)), m[p].fRel[k], m[p].fAbs[k])
  }

  /** A share of the whole is the same share of what aging left of it only if nothing was cut. */
  lemma ShareKept(a: real, share: real, total: real, kept: real, cut: real, aged: real)
    requires a > 0.0 && Scaled(total, share, a) && Scaled(kept, AGING_FACTOR, aged) && total == kept + cut
    ensures Scaled(aged, share, Faded(a)) <==> cut == 0.0
  {
    NoZeroDivisors(total, share);
    NoZeroDivisors(cut, share);
    assert AGING_FACTOR * a == AGING_FACTOR * (kept * share) + AGING_FACTOR * (cut * share);
    assert aged * share == AGING_FACTOR * (kept * share);
  }

  lemma NoZeroDivisors(x: real, y: real)
    ensures x * y == 0.0 <==> x == 0.0 || y == 0.0
  {
  }

  lemma ZeroShare(total: real)
    ensures Scaled(total, 0.0, 0.0)
  {
  }

  lemma UncutShare(c: Client, k: Kind, p: Peer)
    requires Proportional(c.prefs, k) && forall q | q in c.prefs :: c.prefs[q].fAbs[k] >= 0.0
    requires p in c.prefs && !Cut(c.prefs[p].fAbs[k])
    ensures var a := c.prefs[p].fAbs[k];
            Scaled(Total(AbsMap(Aged(c).prefs, k)), c.prefs[p].fRel[k], Faded(a)) <==> CutsNothing(c.prefs, k)
  {
    var m := c.prefs;
    AbsParts(m, k);
    AgedAbsTotal(c, k);
    CutTotal(m, k);
    var total, kept, cut := Total(AbsMap(m, k)), Total(AbsPart(m, k, false)), Total(AbsPart(m, k, true));
    assert Scaled(total, m[p].fRel[k], m[p].fAbs[k]);
    ShareKept(m[p].fAbs[k], m[p].fRel[k], total, kept, cut, Total(AbsMap(Aged(c).prefs, k)));
  }

  lemma AgedShare(c: Client, k: Kind, p: Peer)
    requires Proportional(c.prefs, k) && forall q | q in c.prefs :: c.prefs[q].fAbs[k] >= 0.0
    requires p in Aged(c).prefs
    ensures var aged := Aged(c).prefs;
            Scaled(Total(AbsMap(aged, k)), aged[p].fRel[k], aged[p].fAbs[k])
            <==> Cut(c.prefs[p].fAbs[k]) || CutsNothing(c.prefs, k)
  {
    if Cut(c.prefs[p].fAbs[k]) {
      ZeroShare(Total(AbsMap(Aged(c).prefs, k)));
    } else {
      UncutShare(c, k, p);
    }
  }

  /**
    Relative values keep standing for shares when their client's entries are aged, exactly when no
    positive value of the kind is cut or all are.
   */
  lemma AgingKeepsShares(c: Client, k: Kind)
    requires Proportional(c.prefs, k) && forall p | p in c.prefs :: c.prefs[p].fAbs[k] >= 0.0
    ensures Proportional(Aged(c).prefs, k)
       <==> CutsNothing(c.prefs, k) || forall p | p in c.prefs :: Cut(c.prefs[p].fAbs[k])
  {
    var aged := Aged(c).prefs;
    forall p | p in aged
      ensures Scaled(Total(AbsMap(aged, k)), aged[p].fRel[k], aged[p].fAbs[k])
         <==> Cut(c.prefs[p].fAbs[k]) || CutsNothing(c.prefs, k)
    {
      AgedShare(c, k, p);
    }
    assert forall p | p in c.prefs && !Cut(c.prefs[p].fAbs[k]) :: p in aged;
  }

  // ----- Shares in every run -----

  ghost predicate EntryNonNegative(e: Entry) {
    e.fAbs[0] >= 0.0 && e.fAbs[1] >= 0.0 && e.fRel[0] >= 0.0 && e.fRel[1] >= 0.0
  }

  /** No negative values, and for each kind the relative values add up to at most one. */
  ghost predicate Normalised(c: Client) {
    && (forall p | p in c.prefs :: EntryNonNegative(c.prefs[p]))
    && forall k: Kind :: Total(RelMap(c.prefs, k)) <= 1.0
  }

  ghost predicate AllNormalised(cs: seq<Client>) {
    forall i | 0 <= i < |cs| :: Normalised(cs[i])
  }

  /** A new entry without relative values does not change their sum. */
  lemma ScoredShares(m: Prefs, p: Peer, k: Kind, score: real, j: Kind)
    ensures Total(RelMap(Scored(m, p, k, score), j)) == Total(RelMap(m, j))
  {
    var n := Scored(m, p, k, score);
    if p in m {
      assert RelMap(n, j) == RelMap(m, j);
    } else {
      TotalAt(RelMap(n, j), p);
      assert RelMap(n, j) - {p} == RelMap(m, j);
    }
  }

  lemma ScoredNonNegative(m: Prefs, p: Peer, k: Kind, score: real)
    requires score >= 0.0 && forall q | q in m :: EntryNonNegative(m[q])
    ensures forall q | q in Scored(m, p, k, score) :: EntryNonNegative(Scored(m, p, k, score)[q])
  {
  }

  lemma OtherShares(m: Prefs, k: Kind, sum: real, j: Kind)
    requires sum != 0.0 && j != k
    ensures RelMap(Shares(m, k, sum), j) == RelMap(m, j)
  {
  }

  lemma SharesNonNegative(m: Prefs, k: Kind)
    requires Total(AbsMap(m, k)) != 0.0 && forall q | q in m :: EntryNonNegative(m[q])
    ensures var n := Shares(m, k, Total(AbsMap(m, k)));
            forall q | q in n :: EntryNonNegative(n[q])
  {
    forall q | q in m ensures EntryNonNegative(Shares(m, k, Total(AbsMap(m, k)))[q]) {
      SharesInUnit(m, k, q);
    }
  }

  lemma SharesNormalised(c: Client, p: Peer, k: Kind, score: real)
    requires Normalised(c) && score >= 0.0 && Total(AbsMap(Scored(c.prefs, p, k, score), k)) != 0.0
    ensures var m := Scored(c.prefs, p, k, score);
            Normalised(c.(prefs := Shares(m, k, Total(AbsMap(m, k)))))
  {
    var m := Scored(c.prefs, p, k, score);
    var sum := Total(AbsMap(m, k));
    ScoredNonNegative(c.prefs, p, k, score);
    SharesNonNegative(m, k);
    forall j: Kind ensures Total(RelMap(Shares(m, k, sum), j)) <= 1.0 {
      if j == k {
        SharesAddToOne(m, k);
      } else {
        OtherShares(m, k, sum, j);
        ScoredShares(c.prefs, p, k, score, j);
      }
    }
  }

  lemma AgedNormalised(c: Client)
    requires Normalised(c)
    ensures Normalised(Aged(c))
  {
    forall k: Kind ensures Total(RelMap(Aged(c).prefs, k)) <= 1.0 {
      AgingShrinksShares(c, k);
    }
  }

  lemma JoinedNormalised(cs: seq<Client>, id: ClientId)
    requires AllNormalised(cs)
    ensures AllNormalised(Joined(cs, id))
  {
    forall k: Kind ensures Total(RelMap(map[], k)) == 0.0 {
    }
    assert Normalised(Client(id, map[]));
  }

  ghost predicate NoNegativeScores(es: seq<Step>) {
    forall i | 0 <= i < |es| :: es[i].Update? ==> es[i].score >= 0.0
  }

  lemma UpdateNormalised(s: State, id: ClientId, p: Peer, k: Kind, score: real)
    requires AllNormalised(s.cs) && score >= 0.0 && Divisor(s, id, p, k, score) != 0.0
    ensures AllNormalised(Updated(s, id, p, k, score).cs)
  {
    var cs := Joined(s.cs, id);
    JoinedNormalised(s.cs, id);
    SharesNormalised(cs[FindClient(cs, id)], p, k, score);
  }

  /** The step is an update with a non-negative score that does not divide by zero, or another step. */
  ghost predicate Sensible(s: State, e: Step) {
    e.Update? ==> e.score >= 0.0 && Divisor(s, e.id, e.p, e.k, e.score) != 0.0
  }

  lemma StepNormalised(s: State, e: Step)
    requires AllNormalised(s.cs) && Sensible(s, e)
    ensures AllNormalised(Apply(s, e).cs)
  {
    match e
    case Update(id, p, k, score) => UpdateNormalised(s, id, p, k, score);
    case Age =>
      forall i | 0 <= i < |s.cs| ensures Normalised(AgedClients(s.cs)[i]) {
        AgedNormalised(s.cs[i]);
      }
    case Disconnect(id) =>
  }

  lemma FirstSensible(s: State, es: seq<Step>)
    requires es != [] && NoNegativeScores(es) && NeverDivides(s, es, 0) && NeverDivides(s, es, 1)
    ensures Sensible(s, es[0]) && NoNegativeScores(es[1..])
    ensures NeverDivides(Apply(s, es[0]), es[1..], 0) && NeverDivides(Apply(s, es[0]), es[1..], 1)
  {
    assert es[0].Update? ==> es[0].k == 0 || es[0].k == 1;
  }

  /** In every run without negative scores each client's relative values of a kind add up to at most one. */
  lemma {:induction false} RunKeepsNormalised(s: State, es: seq<Step>, t: State)
    requires AllNormalised(s.cs) && Runs(s, es, t) && NoNegativeScores(es)
    requires NeverDivides(s, es, 0) && NeverDivides(s, es, 1)
    ensures AllNormalised(t.cs)
    decreases |es|
  {
    if es != [] {
      FirstSensible(s, es);
      StepNormalised(s, es[0]);
      RunKeepsNormalised(Apply(s, es[0]), es[1..], t);
    }
  }

  ghost predicate AllProportional(cs: seq<Client>, k: Kind) {
    forall i | 0 <= i < |cs| :: Proportional(cs[i].prefs, k)
  }

  lemma DivideBack(a: real, s: real)
    requires s != 0.0
    ensures Scaled(s, a / s, a)
  {
  }

  lemma SharesProportional(m: Prefs, k: Kind, sum: real)
    requires sum != 0.0 && sum == Total(AbsMap(m, k))
    ensures Proportional(Shares(m, k, sum), k)
  {
    var n := Shares(m, k, sum);
    assert AbsMap(n, k) == AbsMap(m, k);
    forall p | p in n ensures Scaled(Total(AbsMap(n, k)), n[p].fRel[k], n[p].fAbs[k]) {
      DivideBack(m[p].fAbs[k], sum);
    }
  }

  /** An update of another kind adds at most an entry without values of this kind. */
  ghost predicate SameKind(m: Prefs, n: Prefs, p: Peer, k: Kind) {
    && n.Keys == m.Keys + {p}
    && forall q | q in n :: n[q].fAbs[k] == EntryFor(m, q).fAbs[k] && n[q].fRel[k] == EntryFor(m, q).fRel[k]
  }

  lemma SameKindTotal(m: Prefs, n: Prefs, p: Peer, k: Kind)
    requires SameKind(m, n, p, k)
    ensures Total(AbsMap(n, k)) == Total(AbsMap(m, k))
  {
    if p in m {
      assert AbsMap(n, k) == AbsMap(m, k);
    } else {
      TotalAt(AbsMap(n, k), p);
      assert AbsMap(n, k) - {p} == AbsMap(m, k);
    }
  }

  lemma OtherKindProportional(m: Prefs, n: Prefs, p: Peer, k: Kind)
    requires Proportional(m, k) && SameKind(m, n, p, k)
    ensures Proportional(n, k)
  {
    SameKindTotal(m, n, p, k);
    forall q | q in n ensures Scaled(Total(AbsMap(n, k)), n[q].fRel[k], n[q].fAbs[k]) {
      if q in m {
        assert Scaled(Total(AbsMap(m, k)), m[q].fRel[k], m[q].fAbs[k]);
      } else {
        ZeroShare(Total(AbsMap(n, k)));
      }
    }
  }

  lemma ScoreAndShareSameKind(m: Prefs, p: Peer, j: Kind, score: real, sum: real, k: Kind)
    requires sum != 0.0 && j != k
    ensures SameKind(m, Shares(Scored(m, p, j, score), j, sum), p, k)
  {
  }

  lemma UpdateProportional(s: State, id: ClientId, p: Peer, j: Kind, score: real, k: Kind)
    requires AllProportional(s.cs, k) && Divisor(s, id, p, j, score) != 0.0
    ensures AllProportional(Updated(s, id, p, j, score).cs, k)
  {
    var cs := Joined(s.cs, id);
    assert Proportional(map[], k);
    assert AllProportional(cs, k);
    var i := FindClient(cs, id);
    var m, sum := Scored(cs[i].prefs, p, j, score), Divisor(s, id, p, j, score);
    if j == k {
      SharesProportional(m, k, sum);
    } else {
      ScoreAndShareSameKind(cs[i].prefs, p, j, score, sum, k);
      OtherKindProportional(cs[i].prefs, Shares(m, j, sum), p, k);
    }
  }

  /** A run in which aging never cuts a positive value of the kind. */
  ghost predicate CutsNever(s: State, es: seq<Step>, k: Kind)
    decreases |es|
  {
    es != [] ==>
      && (es[0].Age? ==> forall i | 0 <= i < |s.cs| :: CutsNothing(s.cs[i].prefs, k))
      && CutsNever(Apply(s, es[0]), es[1..], k)
  }

  lemma AgedProportional(c: Client, k: Kind)
    requires Proportional(c.prefs, k) && Normalised(c) && CutsNothing(c.prefs, k)
    ensures Proportional(Aged(c).prefs, k)
  {
    forall p | p in c.prefs ensures c.prefs[p].fAbs[k] >= 0.0 {
      assert EntryNonNegative(c.prefs[p]);
    }
    AgingKeepsShares(c, k);
  }

  lemma StepProportional(s: State, e: Step, k: Kind)
    requires AllProportional(s.cs, k) && AllNormalised(s.cs) && Sensible(s, e)
    requires e.Age? ==> forall i | 0 <= i < |s.cs| :: CutsNothing(s.cs[i].prefs, k)
    ensures AllProportional(Apply(s, e).cs, k)
  {
    match e
    case Update(id, p, j, score) => UpdateProportional(s, id, p, j, score, k);
    case Age =>
      forall i | 0 <= i < |s.cs| ensures Proportional(AgedClients(s.cs)[i].prefs, k) {
        AgedProportional(s.cs[i], k);
      }
    case Disconnect(id) =>
  }

  /** In such a run every relative value is the share of the absolute one, though aging never computes it. */
  lemma {:induction false} RunKeepsProportional(s: State, es: seq<Step>, t: State, k: Kind)
    requires AllProportional(s.cs, k) && AllNormalised(s.cs)
    requires Runs(s, es, t) && NoNegativeScores(es) && CutsNever(s, es, k)
    requires NeverDivides(s, es, 0) && NeverDivides(s, es, 1)
    ensures AllProportional(t.cs, k)
    decreases |es|
  {
    if es != [] {
      FirstSensible(s, es);
      StepNormalised(s, es[0]);
      StepProportional(s, es[0], k);
      RunKeepsProportional(Apply(s, es[0]), es[1..], t, k);
    }
  }

  /** What one client scored, by peer. */
  lemma ScoreAdds(s: State, id: ClientId, p: Peer, k: Kind, score: real, q: Peer)
    requires FindClient(s.cs, id) < |s.cs|
    ensures var i := FindClient(s.cs, id);
            var t := Updated(s, id, p, k, score);
            && |t.cs| == |s.cs|
            && (q in t.cs[i].prefs <==> q == p || q in s.cs[i].prefs)
            && (q in t.cs[i].prefs ==>
                  t.cs[i].prefs[q].fAbs[k] == EntryFor(s.cs[i].prefs, q).fAbs[k] + (if q == p then score else 0.0))
  {
  }

  lemma OneScore(one: State)
    requires one == Updated(EMPTY, 5, 1, 0, 0.99)
    ensures |one.cs| == 1 && one.cs[0].id == 5 && FindClient(one.cs, 5) == 0 && AllProportional(one.cs, 0)
    ensures one.cs[0].prefs.Keys == {1} && one.cs[0].prefs[1].fAbs[0] == 0.99
  {
    var none := State([Client(5, map[])], map[]);
    assert Joined([], 5) == none.cs;
    assert one.cs == Updated(none, 5, 1, 0, 0.99).cs;
    forall q: Peer ensures q in one.cs[0].prefs <==> q == 1 {
      ScoreAdds(none, 5, 1, 0, 0.99, q);
    }
    ScoreAdds(none, 5, 1, 0, 0.99, 1);
    DividesByZeroIff(EMPTY, 5, 1, 0, 0.99);
    UpdateProportional(EMPTY, 5, 1, 0, 0.99, 0);
  }

  lemma SecondScore(one: State, s: State)
    requires |one.cs| == 1 && FindClient(one.cs, 5) == 0 && one.cs[0].prefs.Keys == {1}
    requires one.cs[0].prefs[1].fAbs[0] == 0.99 && s == Updated(one, 5, 2, 0, 0.01)
    ensures |s.cs| == 1
    ensures s.cs[0].prefs.Keys == {1, 2} && s.cs[0].prefs[1].fAbs[0] == 0.99 && s.cs[0].prefs[2].fAbs[0] == 0.01
  {
    ScoreAdds(one, 5, 2, 0, 0.01, 1);
    ScoreAdds(one, 5, 2, 0, 0.01, 2);
    forall q: Peer ensures q in s.cs[0].prefs <==> q == 1 || q == 2 {
      ScoreAdds(one, 5, 2, 0, 0.01, q);
    }
  }

  lemma SecondDivisor(one: State)
    requires |one.cs| == 1 && FindClient(one.cs, 5) == 0 && one.cs[0].prefs.Keys == {1}
    requires one.cs[0].prefs[1].fAbs[0] == 0.99
    ensures Divisor(one, 5, 2, 0, 0.01) != 0.0
  {
    DividesByZeroIff(one, 5, 2, 0, 0.01);
  }

  lemma SecondIsCut(c: Client)
    requires c.prefs.Keys == {1, 2} && c.prefs[1].fAbs[0] == 0.99 && c.prefs[2].fAbs[0] == 0.01
    requires Proportional(c.prefs, 0)
    ensures !Proportional(Aged(c).prefs, 0)
  {
    AgingKeepsShares(c, 0);
    assert 2 in c.prefs && Cut(c.prefs[2].fAbs[0]) && 1 in c.prefs && !Cut(c.prefs[1].fAbs[0]);
  }

  /** A score of 0.99 and one of 0.01: aging cuts the second, and the first keeps the share it had. */
  lemma AgingLosesShares() returns (s: State)
    ensures Runs(EMPTY, [Update(5, 1, 0, 0.99), Update(5, 2, 0, 0.01)], s)
    ensures |s.cs| == 1 && Proportional(s.cs[0].prefs, 0) && !Proportional(Aged(s.cs[0]).prefs, 0)
  {
    var one := Apply(EMPTY, Update(5, 1, 0, 0.99));
    s := Apply(one, Update(5, 2, 0, 0.01));
    TwoSteps(Update(5, 1, 0, 0.99), Update(5, 2, 0, 0.01), one, s);
    OneScore(one);
    SecondScore(one, s);
    SecondDivisor(one);
    UpdateProportional(one, 5, 2, 0, 0.01, 0);
    SecondIsCut(s.cs[0]);
  }

  // ----- Aging ends -----

  function Pow95(n: nat): (r: real)
    ensures r > 0.0
  {
    if n == 0 then 1.0 else AGING_FACTOR * Pow95(n - 1)
  }

  lemma BernoulliStep(x: real, n: real)
    requires x > 0.0 && n >= 0.0 && x * (19.0 + n) <= 19.0
    ensures 0.95 * x * (20.0 + n) <= 19.0
  {
    assert 0.95 * x * (20.0 + n) == x * (19.0 + 0.95 * n);
    assert x * (0.05 * n) >= 0.0;
    assert x * (19.0 + 0.95 * n) == x * (19.0 + n) - x * (0.05 * n);
  }

  lemma {:induction false} Bernoulli(n: nat)
    ensures Pow95(n) * (19.0 + n as real) <= 19.0
  {
    if n > 0 {
      Bernoulli(n - 1);
      BernoulliStep(Pow95(n - 1), (n - 1) as real);
    }
  }

  ghost function AgedTimes(s: State, n: nat): State {
    if n == 0 then s else AgedState(AgedTimes(s, n - 1))
  }

  ghost predicate Bounded(cs: seq<Client>, bound: real) {
    forall i, p | 0 <= i < |cs| && p in cs[i].prefs :: EntryBounded(cs[i].prefs[p], bound)
  }

  predicate EntryBounded(e: Entry, bound: real) {
    e.fAbs[0] <= bound && e.fAbs[1] <= bound
  }

  lemma AgedBounded(e: Entry, bound: real)
    requires EntryBounded(e, bound) && bound > 0.0
    ensures EntryBounded(AgedEntry(e), AGING_FACTOR * bound)
  {
  }

  lemma AgingBounded(cs: seq<Client>, bound: real, next: real)
    requires Bounded(cs, bound) && bound > 0.0 && next == AGING_FACTOR * bound
    ensures Bounded(AgedClients(cs), next)
  {
    var aged := AgedClients(cs);
    forall i, p | 0 <= i < |aged| && p in aged[i].prefs ensures EntryBounded(aged[i].prefs[p], next) {
      AgedBounded(cs[i].prefs[p], bound);
    }
  }

  ghost function AgedOften(cs: seq<Client>, n: nat): seq<Client> {
    if n == 0 then cs else AgedClients(AgedOften(cs, n - 1))
  }

  lemma {:induction false} AgedTimesClients(s: State, n: nat)
    ensures AgedTimes(s, n).cs == AgedOften(s.cs, n)
  {
    if n > 0 {
      AgedTimesClients(s, n - 1);
    }
  }

  /** What is left of a bound after n rounds. */
  function Limit(n: nat, bound: real): (r: real)
    requires bound > 0.0
    ensures r > 0.0
  {
    if n == 0 then bound else AGING_FACTOR * Limit(n - 1, bound)
  }

  lemma {:induction false} LimitIs(n: nat, bound: real)
    requires bound > 0.0
    ensures Limit(n, bound) == Pow95(n) * bound
  {
    if n > 0 {
      LimitIs(n - 1, bound);
    }
  }

  lemma {:induction false} AgedOftenBounded(cs: seq<Client>, n: nat, bound: real)
    requires Bounded(cs, bound) && bound > 0.0
    ensures Bounded(AgedOften(cs, n), Limit(n, bound))
  {
    if n > 0 {
      AgedOftenBounded(cs, n - 1, bound);
      AgingBounded(AgedOften(cs, n - 1), Limit(n - 1, bound), Limit(n, bound));
    }
  }

  lemma AgedTimesBounded(s: State, n: nat, bound: real)
    requires Bounded(s.cs, bound) && bound > 0.0
    ensures Bounded(AgedTimes(s, n).cs, Limit(n, bound))
  {
    AgedTimesClients(s, n);
    AgedOftenBounded(s.cs, n, bound);
  }

  lemma SmallIsDead(e: Entry, bound: real)
    requires EntryBounded(e, bound) && AGING_FACTOR * bound <= EPSILON
    ensures Dead(e)
  {
  }

  lemma EnoughRounds(n: nat, bound: real)
    requires bound > 0.0 && n as real >= 1900.0 * bound
    ensures Pow95(n) * bound <= EPSILON
  {
    Bernoulli(n);
    var x, m := Pow95(n), n as real;
    assert x * (1900.0 * bound) <= x * m;
    assert x * m <= x * (19.0 + m);
    assert 1900.0 * (x * bound) == x * (1900.0 * bound);
  }

  lemma {:induction false} AgedTimesCounted(s: State, n: nat)
    requires Counted(s.cs, s.peers)
    ensures Counted(AgedTimes(s, n).cs, AgedTimes(s, n).peers)
  {
    if n > 0 {
      AgedTimesCounted(s, n - 1);
      AgingKeepsCount(AgedTimes(s, n - 1));
    }
  }

  ghost predicate NoEntries(cs: seq<Client>) {
    forall i | 0 <= i < |cs| :: cs[i].prefs == map[]
  }

  lemma SmallAllGone(t: State, bound: real)
    requires Bounded(t.cs, bound) && AGING_FACTOR * bound <= EPSILON
    ensures NoEntries(AgedState(t).cs)
  {
    forall i | 0 <= i < |t.cs| ensures Aged(t.cs[i]).prefs == map[] {
      forall p | p in t.cs[i].prefs ensures Dead(t.cs[i].prefs[p]) {
        SmallIsDead(t.cs[i].prefs[p], bound);
      }
      AllDead(t.cs[i]);
    }
  }

  lemma NothingListed(s: State)
    requires Counted(s.cs, s.peers) && NoEntries(s.cs)
    ensures s.peers == map[]
  {
    forall p: Peer ensures p !in s.peers {
      NoHolders(s.cs, p, 0);
    }
  }

  // ----- The exact lifetime -----

  function AgedValue(a: real, n: nat): real {
    if n == 0 then a else AgedAbs(AgedValue(a, n - 1))
  }

  /** What n rounds of fading leave of a value. */
  function Remains(a: real, n: nat): real {
    Pow95(n) * a
  }

  lemma RemainsStep(a: real, n: nat)
    ensures Remains(a, n + 1) == AGING_FACTOR * Remains(a, n)
    ensures Remains(a, n + 1) > EPSILON ==> Remains(a, n) > EPSILON
  {
  }

  /** A value is kept, and faded n times, exactly as long as that is above the threshold. */
  lemma {:induction false} ValueLifetime(a: real, n: nat)
    ensures n > 0 ==> AgedValue(a, n) == if Remains(a, n) > EPSILON then Remains(a, n) else 0.0
    ensures !Cut(AgedValue(a, n)) <==> Remains(a, n + 1) > EPSILON
  {
    RemainsStep(a, n);
    if n == 0 {
      assert Remains(a, 0) == a;
    } else {
      ValueLifetime(a, n - 1);
      RemainsStep(a, n - 1);
      assert n == 1 ==> Remains(a, 0) == a;
    }
  }

  ghost predicate Lives(e: Entry, n: nat) {
    Remains(e.fAbs[0], n) > EPSILON || Remains(e.fAbs[1], n) > EPSILON
  }

  ghost function AgedClientTimes(c: Client, n: nat): Client {
    if n == 0 then c else Aged(AgedClientTimes(c, n - 1))
  }

  ghost predicate FadedTimes(e: Entry, was: Entry, n: nat) {
    e.fAbs[0] == AgedValue(was.fAbs[0], n) && e.fAbs[1] == AgedValue(was.fAbs[1], n)
  }

  lemma LivesStep(e: Entry, was: Entry, n: nat)
    requires FadedTimes(e, was, n)
    ensures !Dead(e) <==> Lives(was, n + 1)
    ensures FadedTimes(AgedEntry(e), was, n + 1)
  {
    ValueLifetime(was.fAbs[0], n);
    ValueLifetime(was.fAbs[1], n);
  }

  lemma LivesShrinks(e: Entry, n: nat)
    ensures Lives(e, n + 1) ==> Lives(e, n)
  {
    RemainsStep(e.fAbs[0], n);
    RemainsStep(e.fAbs[1], n);
  }

  lemma {:induction false} ClientLifetime(c: Client, n: nat, p: Peer)
    ensures p in AgedClientTimes(c, n).prefs <==> p in c.prefs && (n == 0 || Lives(c.prefs[p], n))
    ensures p in AgedClientTimes(c, n).prefs ==> FadedTimes(AgedClientTimes(c, n).prefs[p], c.prefs[p], n)
  {
    if n > 0 {
      ClientLifetime(c, n - 1, p);
      var d := AgedClientTimes(c, n - 1);
      if p in d.prefs {
        LivesStep(d.prefs[p], c.prefs[p], n - 1);
      } else if p in c.prefs {
        LivesShrinks(c.prefs[p], n - 1);
      }
    }
  }

  lemma {:induction false} AgedOftenAt(cs: seq<Client>, n: nat, i: nat)
    requires i < |cs|
    ensures |AgedOften(cs, n)| == |cs| && AgedOften(cs, n)[i] == AgedClientTimes(cs[i], n)
  {
    if n > 0 {
      AgedOftenAt(cs, n - 1, i);
    }
  }

  /**
    After n rounds without new scores an entry is left exactly when 0.95^n of one of its scores is
    above the threshold, and a peer is listed exactly when such an entry for it is left.
   */
  lemma EntryLifetime(s: State, n: nat, p: Peer)
    requires Counted(s.cs, s.peers) && n > 0
    ensures |AgedTimes(s, n).cs| == |s.cs|
    ensures forall i | 0 <= i < |s.cs| ::
              p in AgedTimes(s, n).cs[i].prefs <==> p in s.cs[i].prefs && Lives(s.cs[i].prefs[p], n)
    ensures p in AgedTimes(s, n).peers
       <==> exists i :: 0 <= i < |s.cs| && p in s.cs[i].prefs && Lives(s.cs[i].prefs[p], n)
  {
    var t := AgedTimes(s, n);
    AgedTimesClients(s, n);
    AgedTimesCounted(s, n);
    AgedOftenLength(s.cs, n);
    forall i | 0 <= i < |s.cs|
      ensures p in t.cs[i].prefs <==> p in s.cs[i].prefs && Lives(s.cs[i].prefs[p], n)
    {
      AgedOftenAt(s.cs, n, i);
      ClientLifetime(s.cs[i], n, p);
    }
    SomeHolder(t.cs, p);
  }

  lemma {:induction false} AgedOftenLength(cs: seq<Client>, n: nat)
    ensures |AgedOften(cs, n)| == |cs|
  {
    if n > 0 {
      AgedOftenLength(cs, n - 1);
    }
  }

  /** Without new scores every preference is forgotten: 1900 rounds for each unit of the highest score do. */
  lemma AgingEnds(s: State, n: nat, bound: real)
    requires Counted(s.cs, s.peers) && Bounded(s.cs, bound) && bound > 0.0 && n as real >= 1900.0 * bound
    ensures AgedTimes(s, n + 1).peers == map[] && NoEntries(AgedTimes(s, n + 1).cs)
  {
    AgedTimesBounded(s, n, bound);
    EnoughRounds(n, bound);
    LimitIs(n, bound);
    SmallAllGone(AgedTimes(s, n), Limit(n, bound));
    AgedTimesCounted(s, n + 1);
    NothingListed(AgedTimes(s, n + 1));
  }

  class PreferenceStore {
    var clients: seq<Client>
    var peers: map<Peer, Global>
    var aging: bool

    /** No division by zero has happened; after one the code's values are not numbers. */
    var numeric: bool

    /** The counters are right, clients are distinct, and entries are aged as long as there are any. */
    ghost predicate Valid()
      reads this
    {
      && Counted(clients, peers)
      && DistinctIds(clients)
      && (aging || forall i | 0 <= i < |clients| :: clients[i].prefs == map[])
    }

    ghost function View(): State
      reads this
    {
      State(clients, peers)
    }

    /** GAS_preference_init */
    constructor ()
      ensures Valid() && View() == State([], map[]) && numeric && !aging
    {
      clients, peers, aging, numeric := [], map[], false, true;
    }

    /** update_relative_values_for_peer; its assertion is the precondition. */
    method UpdateRelative(p: Peer, k: Kind)
      requires p in peers
      modifies `peers
      ensures peers == SetTotal(old(peers), p, k, Sum(clients, p, k))
    {
      var total, i := 0.0, 0;
      while i < |clients|
        invariant i <= |clients| && total + Sum(clients[i..], p, k) == Sum(clients, p, k)
      {
        assert clients[i..][1..] == clients[i + 1..];
        if p in clients[i].prefs {
          total := total + clients[i].prefs[p].fRel[k];
        }
        i := i + 1;
      }
      if peers[p].fRel[k] != total {
        peers := peers[p := peers[p].(fRel := peers[p].fRel[k := total])];
      } else {
        assert peers[p].fRel[k := total] == peers[p].fRel;
        assert peers[p := peers[p]] == peers;
      }
    }

    /** free_preference; its assertions are the precondition. */
    method FreePreference(i: nat, p: Peer)
      requires i < |clients| && p in clients[i].prefs && p in peers && peers[p].numClients > 0
      modifies `clients, `peers
      ensures clients == old(clients)[i := Without(old(clients)[i], p)]
      ensures peers == Released(old(peers), p)
    {
      clients := clients[i := clients[i].(prefs := clients[i].prefs - {p})];
      ReleasePeer(p);
    }

    /** The part of free_preference that counts the clients of a peer. */
    method ReleasePeer(p: Peer)
      requires p in peers && peers[p].numClients > 0
      modifies `peers
      ensures peers == Released(old(peers), p)
    {
      peers := peers[p := peers[p].(numClients := peers[p].numClients - 1)];
      if peers[p].numClients == 0 {
        peers := peers - {p};
      }
    }

    /** The loop body of age_values. */
    method AgeKind(i: nat, p: Peer, k: Kind) returns (alive: bool)
      requires i < |clients| && p in clients[i].prefs && p in peers
      modifies `clients, `peers
      ensures var e := old(clients)[i].prefs[p];
              && clients == old(clients)[i := WithEntry(old(clients)[i], p, AgedKind(e, k))]
              && alive == !Cut(e.fAbs[k])
              && peers == if Cut(e.fAbs[k]) then SetTotal(old(peers), p, k, Sum(clients, p, k)) else old(peers)
    {
      var e := clients[i].prefs[p];
      if e.fAbs[k] > 0.0 {
        e := e.(fAbs := e.fAbs[k := e.fAbs[k] * AGING_FACTOR]);
      }
      if e.fAbs[k] <= EPSILON {
        e := Entry(e.fAbs[k := 0.0], e.fRel[k := 0.0]);
        assert e.fAbs == clients[i].prefs[p].fAbs[k := 0.0];
        clients := clients[i := WithEntry(clients[i], p, e)];
        UpdateRelative(p, k);
        alive := false;
      } else {
        assert e == AgedKind(clients[i].prefs[p], k) by {
          assert e.fRel == clients[i].prefs[p].fRel[k := clients[i].prefs[p].fRel[k]];
        }
        clients := clients[i := WithEntry(clients[i], p, e)];
        alive := true;
      }
    }

    /** age_values without the removal of a dead entry. */
    method AgeKinds(i: nat, p: Peer) returns (live: nat)
      requires i < |clients| && p in clients[i].prefs && p in peers
      modifies `clients, `peers
      ensures var e := old(clients)[i].prefs[p];
              && clients == old(clients)[i := WithEntry(old(clients)[i], p, AgedEntry(e))]
              && peers == Retotalled(clients, old(peers), p, e)
              && (live == 0 <==> Dead(e))
    {
      ghost var cs, e := clients, clients[i].prefs[p];
      live := 0;
      var k := 0;
      NoKindYet(cs, i, p, e);
      while k < KINDS
        invariant k <= KINDS
        invariant clients == ClientsAfter(cs, i, p, e, k) && peers == PeersAfter(old(peers), cs, i, p, e, k)
        invariant live == LiveAfter(e, k)
      {
        KindStep(cs, old(peers), i, p, e, k);
        var alive := AgeKind(i, p, k);
        if alive {
          live := live + 1;
        }
        k := k + 1;
      }
      assert clients == cs[i := WithEntry(cs[i], p, AgedEntry(e))];
    }

    /** age_values */
    method AgeValues(i: nat, p: Peer) returns (live: nat)
      requires i < |clients| && p in clients[i].prefs && p in peers && peers[p].numClients > 0
      modifies `clients, `peers
      ensures var c, e := old(clients)[i], old(clients)[i].prefs[p];
              && clients == old(clients)[i := AgedClient(c, p)]
              && peers == AgedGlobal(old(clients)[i := WithEntry(c, p, AgedEntry(e))], old(peers), p, e)
              && (live == 0 <==> Dead(e))
    {
      ghost var cs, c, e := clients, clients[i], clients[i].prefs[p];
      live := AgeKinds(i, p);
      if live == 0 {
        FreePreference(i, p);
        assert c.prefs[p := AgedEntry(e)] - {p} == c.prefs - {p};
        assert cs[i := WithEntry(c, p, AgedEntry(e))][i := Without(c, p)] == cs[i := Without(c, p)];
      }
    }

    /** The iteration of preference_aging over the peers of one client. */
    method AgePeers(ghost was: seq<Client>, ghost before: map<Peer, Global>, i: nat) returns (live: nat)
      requires i < |was| && AgedTo(was, i, {}, clients) && Counted(clients, peers)
      requires Tracks(was, before, i, {}, clients, peers)
      modifies `clients, `peers
      ensures AgedTo(was, i + 1, {}, clients) && Counted(clients, peers)
      ensures Tracks(was, before, i + 1, {}, clients, peers)
      ensures live == 0 <==> clients[i].prefs == map[]
    {
      ghost var done: set<Peer> := {};
      assert AgedPart(was[i].prefs, {}) == was[i].prefs;
      var todo := clients[i].prefs.Keys;
      live := 0;
      while todo != {}
        invariant todo !! done && todo + done == was[i].prefs.Keys
        invariant AgedTo(was, i, done, clients) && Counted(clients, peers)
        invariant Tracks(was, before, i, done, clients, peers)
        invariant live == 0 <==> forall p | p in done :: Dead(was[i].prefs[p])
      {
        var p :| p in todo;
        AgedToStep(was, i, done, clients, p);
        ghost var totals := clients[i := WithEntry(clients[i], p, AgedEntry(clients[i].prefs[p]))];
        AgeKeepsCount(clients, peers, i, p, totals);
        TracksStep(was, before, i, done, clients, peers, p);
        var n := AgeValues(i, p);
        live := live + n;
        todo, done := todo - {p}, done + {p};
      }
      assert done == was[i].prefs.Keys;
      AgedToNext(was, i, clients, before, peers);
      AllDead(was[i]);
    }

    /** preference_aging */
    method PreferenceAging()
      requires Valid()
      modifies this
      ensures Valid()
      ensures View() == AgedState(old(View())) && numeric == old(numeric)
      ensures aging <==> exists i :: 0 <= i < |clients| && clients[i].prefs != map[]
    {
      ghost var was, before := clients, peers;
      aging := false;
      var live, i := 0, 0;
      AgedToNone(was, before);
      while i < |clients|
        invariant i <= |clients| && AgedTo(was, i, {}, clients) && Counted(clients, peers)
        invariant Tracks(was, before, i, {}, clients, peers) && !aging && numeric == old(numeric)
        invariant live == 0 <==> forall j | 0 <= j < i :: clients[j].prefs == map[]
      {
        ghost var cs := clients;
        var n := AgePeers(was, before, i);
        assert forall j | 0 <= j < i :: clients[j] == cs[j];
        live := live + n;
        i := i + 1;
      }
      AgedToAll(was, clients);
      AgedStateIs(old(View()), View());
      if live > 0 {
        aging := true;
      }
    }

    /** The two iterations of recalculate_relative_preferences. */
    method Recalculate(i: nat, k: Kind)
      requires i < |clients|
      modifies `clients, `numeric
      ensures var c := old(clients)[i];
              var sum := Total(AbsMap(c.prefs, k));
              && numeric == (old(numeric) && sum != 0.0)
              && clients == if sum == 0.0 then old(clients)
                            else old(clients)[i := c.(prefs := Shares(c.prefs, k, sum))]
    {
      var prefs := clients[i].prefs;
      var sum := AddUp(prefs, k);
      if sum == 0.0 {
        numeric := false;
      } else {
        var shares := Divide(prefs, k, sum);
        clients := clients[i := clients[i].(prefs := shares)];
      }
    }

    /** The iteration with update_abs_sum. */
    static method AddUp(prefs: Prefs, k: Kind) returns (sum: real)
      ensures sum == Total(AbsMap(prefs, k))
    {
      sum := 0.0;
      var todo := prefs.Keys;
      ghost var left := AbsMap(prefs, k);
      while todo != {}
        invariant todo <= prefs.Keys && left == map p | p in todo :: prefs[p].fAbs[k]
        invariant sum + Total(left) == Total(AbsMap(prefs, k))
      {
        var p :| p in todo;
        TotalAt(left, p);
        sum := sum + prefs[p].fAbs[k];
        todo, left := todo - {p}, left - {p};
      }
      assert left == map[];
    }

    /** The iteration with update_rel_sum. */
    static method Divide(prefs: Prefs, k: Kind, sum: real) returns (shares: Prefs)
      requires sum != 0.0
      ensures shares == Shares(prefs, k, sum)
    {
      shares := prefs;
      var todo := prefs.Keys;
      while todo != {}
        invariant todo <= prefs.Keys == shares.Keys
        invariant forall p | p in prefs :: shares[p] == if p in todo then prefs[p] else Shares(prefs, k, sum)[p]
      {
        var p :| p in todo;
        shares := shares[p := shares[p].(fRel := shares[p].fRel[k := shares[p].fAbs[k] / sum])];
        todo := todo - {p};
      }
    }

    /** The iteration with update_iterator: every listed peer gets its total again. */
    method RetotalAll(k: Kind)
      modifies `peers
      ensures peers == AllTotals(clients, old(peers), k)
    {
      var todo := peers.Keys;
      while todo != {}
        invariant todo <= old(peers).Keys == peers.Keys
        invariant forall p | p in peers ::
                    peers[p] == if p in todo then old(peers)[p] else AllTotals(clients, old(peers), k)[p]
      {
        var p :| p in todo;
        UpdateRelative(p, k);
        todo := todo - {p};
      }
    }

    /** The search for the client at the start of update_preference. */
    method FindOrAdd(id: ClientId) returns (i: nat)
      modifies `clients
      ensures clients == Joined(old(clients), id) && i == FindClient(clients, id)
      ensures i < |clients| && clients[i].id == id
      ensures if exists j :: 0 <= j < |old(clients)| && old(clients)[j].id == id then clients == old(clients)
              else i == 0 && clients == [Client(id, map[])] + old(clients)
    {
      i := FindExisting(id);
      if i == |clients| {
        clients := [Client(id, map[])] + clients;
        i := 0;
      }
    }

    /** The entry for the peer, and its place among the listed peers, made if missing; then the score. */
    method AddScore(i: nat, p: Peer, k: Kind, score: real)
      requires i < |clients| && (p in clients[i].prefs ==> p in peers)
      modifies `clients, `peers
      ensures var c := old(clients)[i];
              && clients == old(clients)[i := c.(prefs := Scored(c.prefs, p, k, score))]
              && peers == Listed(old(peers), c.prefs, p)
    {
      if p !in peers {
        peers := peers[p := Global(ZERO, 0)];
      }
      var prefs := clients[i].prefs;
      if p !in prefs {
        prefs := prefs[p := Entry(ZERO, ZERO)];
        peers := peers[p := peers[p].(numClients := peers[p].numClients + 1)];
      }
      prefs := prefs[p := prefs[p].(fAbs := prefs[p].fAbs[k := prefs[p].fAbs[k] + score])];
      assert prefs == Scored(clients[i].prefs, p, k, score);
      clients := clients[i := clients[i].(prefs := prefs)];
    }

    /** The part of update_preference that changes the entries of the client. */
    method ScoreAndShare(i: nat, p: Peer, k: Kind, score: real)
      requires i < |clients| && (p in clients[i].prefs ==> p in peers)
      modifies `clients, `peers, `numeric
      ensures var c := old(clients)[i];
              var m := Scored(c.prefs, p, k, score);
              var sum := Total(AbsMap(m, k));
              && clients == old(clients)[i := c.(prefs := if sum == 0.0 then m else Shares(m, k, sum))]
              && peers == Listed(old(peers), c.prefs, p)
              && numeric == (old(numeric) && sum != 0.0)
    {
      AddScore(i, p, k, score);
      Recalculate(i, k);
    }

    /** update_preference for a kind that exists, up to the aging task. */
    method UpdateKind(id: ClientId, p: Peer, k: Kind, score: real)
      requires Counted(clients, peers)
      modifies `clients, `peers, `numeric
      ensures View() == Updated(old(View()), id, p, k, score)
      ensures numeric == (old(numeric) && Divisor(old(View()), id, p, k, score) != 0.0)
    {
      var i := FindOrAdd(id);
      NewClientKeepsAll(old(clients), id, peers, k);
      if p in clients[i].prefs {
        HeldIsListed(clients, peers, i, p);
      }
      ScoreAndShare(i, p, k, score);
      RetotalAll(k);
    }

    /** update_preference */
    method UpdatePreference(id: ClientId, p: Peer, kind: nat, score: real)
      requires Valid()
      modifies this
      ensures Valid()
      ensures kind >= KINDS ==> View() == old(View()) && numeric == old(numeric)
      ensures kind < KINDS ==> View() == Updated(old(View()), id, p, kind, score)
      ensures kind < KINDS ==> numeric == (old(numeric) && Divisor(old(View()), id, p, kind, score) != 0.0)
    {
      if kind >= KINDS {
        return;
      }
      UpdateKeepsCount(View(), id, p, kind, score);
      UpdateKeepsDistinct(View(), id, p, kind, score);
      UpdateKind(id, p, kind, score);
      if !aging {
        aging := true;
      }
    }

    /** The iteration of a disconnect over the entries of the client that left. */
    method ReleaseEntries(prefs: Prefs)
      requires forall p | p in prefs :: p in peers && peers[p].numClients > 0
      modifies `peers
      ensures peers == ReleasedAll(old(peers), prefs.Keys)
    {
      ghost var done: set<Peer> := {};
      var todo := prefs.Keys;
      assert ReleasedAll(peers, {}) == peers;
      while todo != {}
        invariant todo !! done && todo + done == prefs.Keys
        invariant peers == ReleasedAll(old(peers), done)
      {
        var p :| p in todo;
        ReleasePeer(p);
        todo, done := todo - {p}, done + {p};
        assert peers == ReleasedAll(old(peers), done);
      }
      assert done == prefs.Keys;
    }

    method FindExisting(id: ClientId) returns (i: nat)
      ensures i == FindClient(clients, id)
    {
      i := 0;
      while i < |clients| && clients[i].id != id
        invariant i <= |clients| && FindClient(clients, id) == i + FindClient(clients[i..], id)
      {
        assert clients[i..][1..] == clients[i + 1..];
        i := i + 1;
      }
    }

    /** The client is taken off the list, then its entries are freed. */
    method RemoveClient(i: nat)
      requires Counted(clients, peers) && i < |clients|
      modifies `clients, `peers
      ensures View() == Disconnected(old(View()), i)
    {
      var prefs := clients[i].prefs;
      forall p | p in prefs ensures p in peers && peers[p].numClients > 0 {
        HeldIsListed(clients, peers, i, p);
      }
      clients := clients[..i] + clients[i + 1..];
      ReleaseEntries(prefs);
    }

    /** GAS_preference_client_disconnect */
    method ClientDisconnect(id: ClientId)
      requires Valid()
      modifies `clients, `peers
      ensures Valid()
      ensures var i := FindClient(old(clients), id);
              View() == if i < |old(clients)| then Disconnected(old(View()), i) else old(View())
    {
      var i := FindExisting(id);
      if i < |clients| {
        DisconnectKeepsCount(View(), i);
        DisconnectKeepsDistinct(View(), i);
        RemoveClient(i);
      }
    }
  }
}
