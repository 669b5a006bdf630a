/**
 The two ordered session tables of `SecureState` (aismixer_secure.py) as values:
 pending sessions ordered by creation, active sessions ordered by last activity.
 A pending session's `lastSeen` is its creation time.
 */
module SessionTable {
  import opened Common
  import opened AcceptanceLog
  import opened Wire

  datatype Keys = Keys(clientToServer: Key, serverToClient: Key)

  datatype Session = Session(
    addr: Address, station: string, keys: Keys, createdAt: int, lastSeen: int, nonces: Store<Nonce>)

  type Table = seq<Session>

  predicate NoLaterSeen(t: Table, i: int, j: int)
    requires 0 <= i < |t| && 0 <= j < |t|
  {
    t[i].lastSeen <= t[j].lastSeen
  }

  predicate Sorted(t: Table) {
    forall i, j :: 0 <= i <= j < |t| ==> NoLaterSeen(t, i, j)
  }

  predicate AddressesDiffer(t: Table, i: int, j: int)
    requires 0 <= i < |t| && 0 <= j < |t|
  {
    t[i].addr != t[j].addr
  }

  predicate OnePerAddress(t: Table) {
    forall i, j :: 0 <= i < j < |t| ==> AddressesDiffer(t, i, j)
  }

  predicate Has(t: Table, addr: Address) {
    exists i :: 0 <= i < |t| && t[i].addr == addr
  }

  function Find(t: Table, addr: Address): (k: nat)
    requires Has(t, addr)
    ensures k < |t| && t[k].addr == addr
  {
    if t[0].addr == addr then 0 else
      assert forall i :: 0 < i < |t| ==> t[i] == t[1..][i - 1];
      1 + Find(t[1..], addr)
  }

  predicate Expired(s: Session, now: int, ttl: int) {
    now - s.lastSeen >= ttl
  }

  /** The sessions whose age is below `ttl`, in order. */
  function Live(t: Table, now: int, ttl: int): (live: Table)
    ensures |live| <= |t|
  {
    if t == [] then []
    else if Expired(t[0], now, ttl) then Live(t[1..], now, ttl)
    else [t[0]] + Live(t[1..], now, ttl)
  }

  function Without(t: Table, k: nat): Table
    requires k < |t|
  {
    t[..k] + t[k + 1..]
  }

  /** Nonces retained by all sessions of a table. */
  function NonceTotal(t: Table): int {
    if t == [] then 0 else t[0].nonces.Size() + NonceTotal(t[1..])
  }

  lemma {:induction false} TotalConcat(a: Table, b: Table)
    ensures NonceTotal(a + b) == NonceTotal(a) + NonceTotal(b)
  {
    if a == [] {
      assert a + b == b;
    } else {
      assert (a + b)[1..] == a[1..] + b;
      TotalConcat(a[1..], b);
    }
  }

  lemma TotalSplit(t: Table, k: nat)
    requires k <= |t|
    ensures NonceTotal(t) == NonceTotal(t[..k]) + NonceTotal(t[k..])
  {
    assert t == t[..k] + t[k..];
    TotalConcat(t[..k], t[k..]);
  }

  lemma TotalWithout(t: Table, k: nat)
    requires k < |t|
    ensures NonceTotal(Without(t, k)) == NonceTotal(t) - t[k].nonces.Size()
  {
    TotalSplit(t, k);
    assert t[k..][1..] == t[k + 1..];
    TotalConcat(t[..k], t[k + 1..]);
  }

  lemma TotalUpdate(t: Table, k: nat, s: Session)
    requires k < |t|
    ensures NonceTotal(t[k := s]) == NonceTotal(t) - t[k].nonces.Size() + s.nonces.Size()
  {
    TotalSplit(t, k);
    TotalSplit(t[k := s], k);
    assert t[k := s][..k] == t[..k];
    assert t[k := s][k..][1..] == t[k..][1..];
  }

  /** A scan from the front that stops at the first unexpired session removes exactly the expired ones. */
  lemma {:induction false} ScanIsExact(t: Table, k: nat, now: int, ttl: int)
    requires Sorted(t) && k <= |t|
    requires forall i :: 0 <= i < k ==> Expired(t[i], now, ttl)
    requires k < |t| ==> !Expired(t[k], now, ttl)
    ensures Live(t, now, ttl) == t[k..]
  {
    if t == [] { return; }
    SortedDrop(t, 1);
    if k > 0 {
      ScanIsExact(t[1..], k - 1, now, ttl);
      assert t[1..][k - 1..] == t[k..];
    } else {
      if |t| > 1 { assert NoLaterSeen(t, 0, 1); }
      ScanIsExact(t[1..], 0, now, ttl);
    }
  }

  /** Where that scan stops. */
  lemma {:induction false} ScanStops(t: Table, now: int, ttl: int) returns (k: nat)
    requires Sorted(t)
    ensures k <= |t| && Live(t, now, ttl) == t[k..]
    ensures forall i :: 0 <= i < k ==> Expired(t[i], now, ttl)
    ensures forall i :: k <= i < |t| ==> !Expired(t[i], now, ttl)
  {
    k := 0;
    while k < |t| && Expired(t[k], now, ttl)
      invariant k <= |t| && forall i :: 0 <= i < k ==> Expired(t[i], now, ttl)
    {
      k := k + 1;
    }
    ScanIsExact(t, k, now, ttl);
    forall i | k <= i < |t| ensures !Expired(t[i], now, ttl) {
      assert NoLaterSeen(t, k, i);
    }
  }

  lemma SortedDrop(t: Table, k: nat)
    requires Sorted(t) && k <= |t|
    ensures Sorted(t[k..])
  {
    forall i, j | 0 <= i <= j < |t[k..]| ensures NoLaterSeen(t[k..], i, j) {
      assert NoLaterSeen(t, k + i, k + j);
    }
  }

  lemma OnePerAddressDrop(t: Table, k: nat)
    requires OnePerAddress(t) && k <= |t|
    ensures OnePerAddress(t[k..])
  {
    forall i, j | 0 <= i < j < |t[k..]| ensures AddressesDiffer(t[k..], i, j) {
      assert AddressesDiffer(t, k + i, k + j);
    }
  }

  /** What both tables always satisfy: order, one session per address, sound nonce sets, nothing from the future. */
  predicate Orderly(t: Table, clock: int, nonceTtl: int, nonceMax: nat) {
    && Sorted(t) && OnePerAddress(t)
    && (forall i :: 0 <= i < |t| ==>
          t[i].lastSeen <= clock && t[i].nonces.clock <= clock && Sound(t[i].nonces, nonceTtl, Some(nonceMax)))
  }

  lemma OrderlyLater(t: Table, clock: int, later: int, nonceTtl: int, nonceMax: nat)
    requires Orderly(t, clock, nonceTtl, nonceMax) && clock <= later
    ensures Orderly(t, later, nonceTtl, nonceMax)
  {
  }

  lemma OrderlyDrop(t: Table, k: nat, clock: int, nonceTtl: int, nonceMax: nat)
    requires Orderly(t, clock, nonceTtl, nonceMax) && k <= |t|
    ensures Orderly(t[k..], clock, nonceTtl, nonceMax)
  {
    SortedDrop(t, k);
    OnePerAddressDrop(t, k);
  }

  lemma OrderlyWithout(t: Table, k: nat, clock: int, nonceTtl: int, nonceMax: nat)
    requires Orderly(t, clock, nonceTtl, nonceMax) && k < |t|
    ensures Orderly(Without(t, k), clock, nonceTtl, nonceMax)
    ensures !Has(Without(t, k), t[k].addr)
  {
    var w := Without(t, k);
    forall i, j | 0 <= i <= j < |w| ensures NoLaterSeen(w, i, j) {
      assert NoLaterSeen(t, if i < k then i else i + 1, if j < k then j else j + 1);
    }
    forall i, j | 0 <= i < j < |w| ensures AddressesDiffer(w, i, j) {
      assert AddressesDiffer(t, if i < k then i else i + 1, if j < k then j else j + 1);
    }
    forall i | 0 <= i < |w| ensures w[i].addr != t[k].addr {
      if i < k { assert AddressesDiffer(t, i, k); } else { assert AddressesDiffer(t, k, i + 1); }
    }
  }

  lemma OrderlyAppend(t: Table, s: Session, clock: int, nonceTtl: int, nonceMax: nat)
    requires Orderly(t, clock, nonceTtl, nonceMax) && !Has(t, s.addr)
    requires s.lastSeen == clock && s.nonces.clock <= clock && Sound(s.nonces, nonceTtl, Some(nonceMax))
    ensures Orderly(t + [s], clock, nonceTtl, nonceMax)
  {
    var a := t + [s];
    forall i, j | 0 <= i <= j < |a| ensures NoLaterSeen(a, i, j) {
      if j < |t| { assert NoLaterSeen(t, i, j); }
    }
    forall i, j | 0 <= i < j < |a| ensures AddressesDiffer(a, i, j) {
      if j < |t| { assert AddressesDiffer(t, i, j); }
    }
  }

  /** Changing only the nonce set of one session. */
  lemma OrderlyNonces(t: Table, k: nat, nonces: Store<Nonce>, clock: int, nonceTtl: int, nonceMax: nat)
    requires Orderly(t, clock, nonceTtl, nonceMax) && k < |t|
    requires nonces.clock <= clock && Sound(nonces, nonceTtl, Some(nonceMax))
    ensures Orderly(t[k := t[k].(nonces := nonces)], clock, nonceTtl, nonceMax)
  {
    var u := t[k := t[k].(nonces := nonces)];
    forall i, j | 0 <= i <= j < |u| ensures NoLaterSeen(u, i, j) {
      assert NoLaterSeen(t, i, j);
    }
    forall i, j | 0 <= i < j < |u| ensures AddressesDiffer(u, i, j) {
      assert AddressesDiffer(t, i, j);
    }
  }

  lemma SameAddressSameSession(t: Table, i: nat, j: nat)
    requires OnePerAddress(t) && i < |t| && j < |t|
    ensures t[i].addr == t[j].addr ==> i == j
  {
    if i < j { assert AddressesDiffer(t, i, j); }
    if j < i { assert AddressesDiffer(t, j, i); }
  }

  lemma FindIsUnique(t: Table, addr: Address, k: nat)
    requires OnePerAddress(t) && k < |t| && t[k].addr == addr
    ensures Has(t, addr) && Find(t, addr) == k
  {
    SameAddressSameSession(t, Find(t, addr), k);
  }

  /** No table retains more nonces than its sessions are allowed. */
  lemma {:induction false} TotalIsBounded(t: Table, clock: int, nonceTtl: int, nonceMax: nat)
    requires Orderly(t, clock, nonceTtl, nonceMax)
    ensures 0 <= NonceTotal(t) <= |t| * nonceMax
  {
    if t != [] {
      OrderlyDrop(t, 1, clock, nonceTtl, nonceMax);
      TotalIsBounded(t[1..], clock, nonceTtl, nonceMax);
      assert |t| * nonceMax == nonceMax + |t[1..]| * nonceMax;
    }
  }

  lemma TotalDrop(t: Table, k: nat, clock: int, nonceTtl: int, nonceMax: nat)
    requires Orderly(t, clock, nonceTtl, nonceMax) && k <= |t|
    ensures NonceTotal(t[k..]) <= NonceTotal(t)
  {
    TotalSplit(t, k);
    OrderlyTake(t, k, clock, nonceTtl, nonceMax);
    TotalIsBounded(t[..k], clock, nonceTtl, nonceMax);
  }

  lemma OrderlyTake(t: Table, k: nat, clock: int, nonceTtl: int, nonceMax: nat)
    requires Orderly(t, clock, nonceTtl, nonceMax) && k <= |t|
    ensures Orderly(t[..k], clock, nonceTtl, nonceMax)
  {
    forall i, j | 0 <= i <= j < |t[..k]| ensures NoLaterSeen(t[..k], i, j) {
      assert NoLaterSeen(t, i, j);
    }
    forall i, j | 0 <= i < j < |t[..k]| ensures AddressesDiffer(t[..k], i, j) {
      assert AddressesDiffer(t, i, j);
    }
  }
}
