/** The directory of sessions: three indexes and a set that must agree, and the search for an
    unused session id. */
module SessionDirectories {
  import opened Wire
  import opened HandshakePackets

  datatype Address = Address(text: string, valid: bool)

  datatype MaybeAddress = NoAddress | At(address: Address)

  /** What the directory sees of a session: its keys, which do not change while it is listed. */
  class Session {
    const localSessionID: UInt16
    const fullID: string
    const address: Address

    constructor (localSessionID: UInt16, fullID: string, address: Address)
      ensures this.localSessionID == localSessionID && this.fullID == fullID && this.address == address
    {
      this.localSessionID, this.fullID, this.address := localSessionID, fullID, address;
    }
  }

  datatype Indexes = Indexes(
    bySessionID: map<UInt16, Session>,
    byFullID: map<string, Session>,
    byAddress: map<string, Session>,
    all: set<Session>)

  const NO_SESSIONS: Indexes := Indexes(map[], map[], map[], {})

  /** The full id is not looked at. */
  predicate Accepts(d: Indexes, c: Session) {
    c.address.valid && c.localSessionID !in d.bySessionID && c.address.text !in d.byAddress
  }

  function Inserted(d: Indexes, c: Session): Indexes {
    if !Accepts(d, c) then d
    else Indexes(d.bySessionID[c.localSessionID := c], d.byFullID[c.fullID := c],
                 d.byAddress[c.address.text := c], d.all + {c})
  }

  /** By its keys, whoever is listed under them. */
  function Removed(d: Indexes, c: Session): Indexes {
    Indexes(d.bySessionID - {c.localSessionID}, d.byFullID - {c.fullID}, d.byAddress - {c.address.text}, d.all - {c})
  }

  /** Every listed session is found under each of its three keys, and nothing else is found. */
  ghost predicate Agree(d: Indexes) {
    && (forall c :: c in d.all ==>
          && c.localSessionID in d.bySessionID && d.bySessionID[c.localSessionID] == c
          && c.fullID in d.byFullID && d.byFullID[c.fullID] == c
          && c.address.text in d.byAddress && d.byAddress[c.address.text] == c)
    && (forall i :: i in d.bySessionID ==> d.bySessionID[i] in d.all && d.bySessionID[i].localSessionID == i)
    && (forall i :: i in d.byFullID ==> d.byFullID[i] in d.all && d.byFullID[i].fullID == i)
    && (forall i :: i in d.byAddress ==> d.byAddress[i] in d.all && d.byAddress[i].address.text == i)
  }

  /** The indexes still agree after an insertion exactly when it was refused or the full id was new. */
  lemma InsertKeepsAgreement(d: Indexes, c: Session)
    requires Agree(d)
    ensures Agree(Inserted(d, c)) <==> !Accepts(d, c) || c.fullID !in d.byFullID
  {
    var e := Inserted(d, c);
    if Accepts(d, c) && c.fullID in d.byFullID {
      var other := d.byFullID[c.fullID];
      assert other in e.all && other != c && e.byFullID[other.fullID] == c;
    }
  }

  /** A removal keeps the agreement exactly when the session is listed, or none of its keys is. */
  lemma RemoveKeepsAgreement(d: Indexes, c: Session)
    requires Agree(d)
    ensures Agree(Removed(d, c)) <==>
              c in d.all ||
              (c.localSessionID !in d.bySessionID && c.fullID !in d.byFullID && c.address.text !in d.byAddress)
  {
    var e := Removed(d, c);
    if c !in d.all {
      if c.localSessionID in d.bySessionID {
        assert d.bySessionID[c.localSessionID] in e.all;
      }
      if c.fullID in d.byFullID {
        assert d.byFullID[c.fullID] in e.all;
      }
      if c.address.text in d.byAddress {
        assert d.byAddress[c.address.text] in e.all;
      }
    }
  }

  /** Removing takes back an insertion. */
  lemma RemoveUndoesInsert(d: Indexes, c: Session)
    requires Agree(d) && Accepts(d, c) && c.fullID !in d.byFullID
    ensures Removed(Inserted(d, c), c) == d
  {
    var e := Removed(Inserted(d, c), c);
    assert e.bySessionID == d.bySessionID;
    assert e.byFullID == d.byFullID;
    assert e.byAddress == d.byAddress;
    assert c !in d.all;
    assert e.all == d.all;
  }

  // Runs

  datatype Operation = Insert(c: Session) | Remove(c: Session)

  function Applied(d: Indexes, op: Operation): Indexes {
    match op
    case Insert(c) => Inserted(d, c)
    case Remove(c) => Removed(d, c)
  }

  function Run(d: Indexes, ops: seq<Operation>): Indexes
    decreases |ops|
  {
    if ops == [] then d else Run(Applied(d, ops[0]), ops[1..])
  }

  /** The callers' part: they insert only when the full id is not listed, and remove only what is. */
  predicate Polite(d: Indexes, ops: seq<Operation>)
    decreases |ops|
  {
    ops == [] ||
    (&& (match ops[0]
         case Insert(c) => c.fullID !in d.byFullID
         case Remove(c) => c in d.all)
     && Polite(Applied(d, ops[0]), ops[1..]))
  }

  /** After any such run the three indexes and the set hold the same sessions. */
  lemma {:induction false} RunsKeepAgreement(d: Indexes, ops: seq<Operation>)
    requires Agree(d) && Polite(d, ops)
    ensures Agree(Run(d, ops))
    decreases |ops|
  {
    if ops != [] {
      match ops[0] {
        case Insert(c) => InsertKeepsAgreement(d, c);
        case Remove(c) => RemoveKeepsAgreement(d, c);
      }
      hide Agree;
      RunsKeepAgreement(Applied(d, ops[0]), ops[1..]);
    }
  }

  // Unused ids

  /** One more than the largest id: the upper half of the ids is never given out. */
  const ID_RANGE: nat := 32768
  const MAX_STEP: nat := 3276

  type Random = nat -> UInt32

  function Increment(rnd: Random, i: nat): (r: nat)
    ensures 1 <= r <= MAX_STEP
  {
    1 + rnd(i) % MAX_STEP
  }

  /** The index after the first n steps. */
  function Walk(start: nat, rnd: Random, n: nat): nat {
    if n == 0 then start else (Walk(start, rnd, n - 1) + Increment(rnd, n)) % ID_RANGE
  }

  /** The index cannot be given out as an id. */
  predicate Blocked(used: set<nat>, index: nat) {
    index == 0 || index >= ID_RANGE || index in used
  }

  /** The first index from step i on that can be given out, or zero. */
  function Found(used: set<nat>, start: nat, rnd: Random, i: nat): nat
    requires i <= ID_RANGE
    decreases ID_RANGE - i
  {
    if i == ID_RANGE then INVALID_SESSION_ID
    else if Blocked(used, Walk(start, rnd, i)) then Found(used, start, rnd, i + 1)
    else Walk(start, rnd, i)
  }

  lemma WalkStep(start: nat, rnd: Random, i: nat)
    requires i > 0
    ensures Walk(start, rnd, i) == (Walk(start, rnd, i - 1) + Increment(rnd, i)) % ID_RANGE
    ensures Walk(start, rnd, 0) == start
  {
    hide Increment;
  }

  lemma NothingAtTheEnd(used: set<nat>, start: nat, rnd: Random)
    ensures Found(used, start, rnd, ID_RANGE) == INVALID_SESSION_ID
  {
  }

  lemma FoundStep(used: set<nat>, start: nat, rnd: Random, i: nat)
    requires i < ID_RANGE
    ensures Found(used, start, rnd, i) ==
            if Blocked(used, Walk(start, rnd, i)) then Found(used, start, rnd, i + 1) else Walk(start, rnd, i)
  {
    hide Blocked, Walk;
  }

  /** Something is found exactly when some index walked over is free, and then it is free. */
  lemma {:induction false} FoundIsFree(used: set<nat>, start: nat, rnd: Random, i: nat) returns (k: nat)
    requires i <= ID_RANGE && Found(used, start, rnd, i) != INVALID_SESSION_ID
    ensures i <= k < ID_RANGE && !Blocked(used, Walk(start, rnd, k))
    ensures Found(used, start, rnd, i) == Walk(start, rnd, k)
    decreases ID_RANGE - i
  {
    if i == ID_RANGE {
      k := i;
    } else {
      FoundStep(used, start, rnd, i);
      hide Found, Blocked, Walk;
      k := i;
      if Blocked(used, Walk(start, rnd, i)) {
        k := FoundIsFree(used, start, rnd, i + 1);
      }
    }
  }

  lemma {:induction false} NothingIsFree(used: set<nat>, start: nat, rnd: Random, i: nat, k: nat)
    requires i <= k < ID_RANGE && Found(used, start, rnd, i) == INVALID_SESSION_ID
    ensures Blocked(used, Walk(start, rnd, k))
    decreases ID_RANGE - i
  {
    FoundStep(used, start, rnd, i);
    hide Found, Walk;
    if i < k {
      NothingIsFree(used, start, rnd, i + 1, k);
    }
  }

  class CommsSessionDirectory {
    var mBySessionID: map<UInt16, Session>
    var mByFullID: map<string, Session>
    var mByAddress: map<string, Session>
    var mAll: set<Session>
    var mUnusedIndex: UInt16

    ghost function View(): Indexes
      reads this
    {
      Indexes(mBySessionID, mByFullID, mByAddress, mAll)
    }

    ghost predicate Valid()
      reads this
    {
      Agree(View()) && mUnusedIndex < ID_RANGE
    }

    constructor ()
      ensures View() == NO_SESSIONS && Valid() && mUnusedIndex == 1
    {
      mBySessionID, mByFullID, mByAddress, mAll, mUnusedIndex := map[], map[], map[], {}, 1;
    }

    method Insert(c: Session)
      modifies this`mBySessionID, this`mByFullID, this`mByAddress, this`mAll
      ensures View() == Inserted(old(View()), c)
      ensures c in mAll <==> (
        c in old(mAll) ||
        (c.address.valid && c.localSessionID !in old(mBySessionID) && c.address.text !in old(mByAddress)))
    {
      if !c.address.valid || c.localSessionID in mBySessionID || c.address.text in mByAddress {
        return;
      }
      mBySessionID := mBySessionID[c.localSessionID := c];
      mByFullID := mByFullID[c.fullID := c];
      mByAddress := mByAddress[c.address.text := c];
      mAll := mAll + {c};
    }

    method Remove(c: Session?)
      modifies this`mBySessionID, this`mByFullID, this`mByAddress, this`mAll
      ensures View() == if c == null then old(View()) else Removed(old(View()), c)
    {
      if c != null {
        mByAddress := mByAddress - {c.address.text};
        mByFullID := mByFullID - {c.fullID};
        mBySessionID := mBySessionID - {c.localSessionID};
        mAll := mAll - {c};
      }
    }

    /** In an agreeing directory a lookup finds the one listed session with that key, if any. */
    method BySessionID(sessionID: UInt16) returns (c: Session?)
      requires Valid()
      ensures c != null ==> c in mAll && c.localSessionID == sessionID
      ensures c == null ==> forall s :: s in mAll ==> s.localSessionID != sessionID
      ensures forall s :: s in mAll && s.localSessionID == sessionID ==> s == c
    {
      c := if sessionID in mBySessionID then mBySessionID[sessionID] else null;
    }

    method ByFullID(id: string) returns (c: Session?)
      requires Valid()
      ensures c != null ==> c in mAll && c.fullID == id
      ensures c == null ==> forall s :: s in mAll ==> s.fullID != id
      ensures forall s :: s in mAll && s.fullID == id ==> s == c
    {
      c := if id in mByFullID then mByFullID[id] else null;
    }

    method ByAddress(at: MaybeAddress) returns (c: Session?)
      requires Valid()
      ensures at.NoAddress? || !at.address.valid ==> c == null
      ensures c != null ==> c in mAll && c.address.text == at.address.text
      ensures at.At? && at.address.valid && c == null ==> forall s :: s in mAll ==> s.address.text != at.address.text
    {
      if at.NoAddress? || !at.address.valid {
        return null;
      }
      c := if at.address.text in mByAddress then mByAddress[at.address.text] else null;
    }

    /** Steps through the ids by random increments until one is free. */
    method GenerateUnusedSessionID(rnd: Random) returns (id: UInt16)
      requires mUnusedIndex < ID_RANGE
      modifies this`mUnusedIndex
      ensures mUnusedIndex < ID_RANGE
      ensures id != 0 ==> 1 <= id < 32768 && id !in mBySessionID
      ensures id == 0 <==> forall i :: 1 <= i < 32768 ==> Blocked(mBySessionID.Keys, Walk(old(mUnusedIndex), rnd, i))
      ensures id == Found(mBySessionID.Keys, old(mUnusedIndex), rnd, 1)
      ensures mUnusedIndex == if id != 0 then id else Walk(old(mUnusedIndex), rnd, 32767)
    {
      hide Found, Walk, Increment;
      ghost var start := mUnusedIndex;
      WalkStep(start, rnd, 1);
      var i := 1;
      while i < ID_RANGE
        invariant 1 <= i <= ID_RANGE && mUnusedIndex < ID_RANGE
        invariant mUnusedIndex == Walk(start, rnd, i - 1)
        invariant forall k :: 1 <= k < i ==> Blocked(mBySessionID.Keys, Walk(start, rnd, k))
        invariant Found(mBySessionID.Keys, start, rnd, 1) == Found(mBySessionID.Keys, start, rnd, i)
        modifies this`mUnusedIndex
      {
        FoundStep(mBySessionID.Keys, start, rnd, i);
        WalkStep(start, rnd, i);
        var inc := Increment(rnd, i);
        mUnusedIndex := (mUnusedIndex + inc) % ID_RANGE;
        if mUnusedIndex != 0 && mUnusedIndex !in mBySessionID {
          assert !Blocked(mBySessionID.Keys, Walk(start, rnd, i));
          return mUnusedIndex;
        }
        i := i + 1;
      }
      NothingAtTheEnd(mBySessionID.Keys, start, rnd);
      return INVALID_SESSION_ID;
    }

    /** Creates a session for a peer with a key and a known address. The indexes still agree exactly
        when no session is listed under the id of the new one, or the new one is refused. */
    method CreateSession(id: string, hasValidKey: bool, associate: MaybeAddress,
                         rnd: Random) returns (session: Session?)
      requires Valid()
      modifies this
      ensures mUnusedIndex < ID_RANGE
      ensures Valid() <==> session == null || session.address.text in old(mByAddress) || id !in old(mByFullID)
      ensures session != null <==>
        hasValidKey && associate.At? && associate.address.valid &&
        Found(old(mBySessionID).Keys, old(mUnusedIndex), rnd, 1) >= FIRST_STATE_ID
      ensures session != null ==>
        session.localSessionID == mUnusedIndex == Found(old(mBySessionID).Keys, old(mUnusedIndex), rnd, 1)
      ensures session != null ==>
        && fresh(session) && session.fullID == id && session.address == associate.address
        && FIRST_STATE_ID <= session.localSessionID < ID_RANGE
        && session.localSessionID !in old(mBySessionID)
      ensures View() == if session == null then old(View()) else Inserted(old(View()), session)
      ensures session != null ==> (session in mAll <==> session.address.text !in old(mByAddress))
    {
      session := null;
      if hasValidKey {
        var localSessionID := GenerateUnusedSessionID(rnd);
        if localSessionID >= FIRST_STATE_ID {
          if associate.At? && associate.address.valid {
            session := new Session(localSessionID, id, associate.address);
            InsertKeepsAgreement(View(), session);
            Insert(session);
          }
        }
      }
    }
  }

  /** A new directory, with one session listed. A session for another peer at the same address is
      created and refused; one for that peer at an address of its own is created and listed. */
  method RefusedThenListed(other: string, peer: string, taken: Address, own: Address)
    returns (d: CommsSessionDirectory, first: Session?, second: Session?)
    requires other != peer && taken.valid && own.valid && taken.text != own.text
    ensures first != null && first.fullID == peer && first !in d.mAll
    ensures second != null && second.fullID == peer && second in d.mAll
    ensures d.Valid() && FIRST_STATE_ID <= first.localSessionID && first.localSessionID != second.localSessionID
  {
    hide Found, Agree;
    d := new CommsSessionDirectory();
    ghost var s := Ids(d.mBySessionID.Keys, d.mUnusedIndex);
    FoundAtOnce(s, 0);
    var listed := d.CreateSession(other, true, At(taken), Picks(0));
    FoundAtOnce(Ids(d.mBySessionID.Keys, d.mUnusedIndex), 1);
    first := d.CreateSession(peer, true, At(taken), Picks(1));
    FoundAtOnce(Ids(d.mBySessionID.Keys, d.mUnusedIndex), 2);
    second := d.CreateSession(peer, true, At(own), Picks(2));
  }

  // How many sessions the search can bear

  function Distance(rnd: Random, n: nat): nat {
    if n == 0 then 0 else Distance(rnd, n - 1) + Increment(rnd, n)
  }

  lemma {:induction false} WalkIsDistance(start: nat, rnd: Random, n: nat)
    requires start < ID_RANGE
    ensures Walk(start, rnd, n) == (start + Distance(rnd, n)) % ID_RANGE
  {
    if n > 0 {
      WalkIsDistance(start, rnd, n - 1);
    }
  }

  lemma {:induction false} DistanceGrows(rnd: Random, i: nat, j: nat)
    requires i <= j
    ensures j - i <= Distance(rnd, j) - Distance(rnd, i) <= MAX_STEP * (j - i)
    decreases j
  {
    if i < j {
      DistanceGrows(rnd, i, j - 1);
    }
  }

  /** Ten steps do not go round the whole range. */
  lemma ElevenAreDistinct(start: nat, rnd: Random, i: nat, j: nat)
    requires start < ID_RANGE && i < j <= i + 10
    ensures Walk(start, rnd, i) != Walk(start, rnd, j)
  {
    WalkIsDistance(start, rnd, i);
    WalkIsDistance(start, rnd, j);
    DistanceGrows(rnd, i, j);
    hide Walk, Distance;
    NoFullRound(start + Distance(rnd, i), start + Distance(rnd, j));
  }

  lemma NoFullRound(a: nat, b: nat)
    requires a < b < a + ID_RANGE
    ensures a % ID_RANGE != b % ID_RANGE
  {
  }

  function Seen(start: nat, rnd: Random, n: nat): set<nat> {
    if n == 0 then {} else Seen(start, rnd, n - 1) + {Walk(start, rnd, n)}
  }

  lemma {:induction false} SeenAt(start: nat, rnd: Random, n: nat, v: nat) returns (i: nat)
    requires v in Seen(start, rnd, n)
    ensures 1 <= i <= n && v == Walk(start, rnd, i)
  {
    if v == Walk(start, rnd, n) {
      i := n;
    } else {
      i := SeenAt(start, rnd, n - 1, v);
    }
  }

  lemma {:induction false} SeenOnce(start: nat, rnd: Random, n: nat)
    requires start < ID_RANGE && n <= 11
    ensures |Seen(start, rnd, n)| == n
  {
    hide Walk;
    if n > 0 {
      SeenOnce(start, rnd, n - 1);
      if Walk(start, rnd, n) in Seen(start, rnd, n - 1) {
        var i := SeenAt(start, rnd, n - 1, Walk(start, rnd, n));
        ElevenAreDistinct(start, rnd, i, n);
        assert false;
      }
    }
  }

  lemma SubsetSize<T>(a: set<T>, b: set<T>)
    requires a <= b
    ensures |a| <= |b|
  {
    assert b == a + (b - a);
  }

  lemma WalkStaysInRange(start: nat, rnd: Random, n: nat)
    requires n > 0
    ensures Walk(start, rnd, n) < ID_RANGE
  {
  }

  /** With at most nine sessions a search always finds an id, whatever the random numbers are: the
      first eleven indexes are all different, and only zero and the ids in use are passed over. */
  lemma FewSessionsLeaveAnId(used: set<nat>, start: nat, rnd: Random)
    requires start < ID_RANGE && |used| <= 9
    ensures exists i :: 1 <= i <= 11 && !Blocked(used, Walk(start, rnd, i))
    ensures Found(used, start, rnd, 1) != INVALID_SESSION_ID
  {
    hide Walk, Found;
    if Found(used, start, rnd, 1) == INVALID_SESSION_ID {
      forall i | 1 <= i <= 11 ensures Blocked(used, Walk(start, rnd, i)) {
        NothingIsFree(used, start, rnd, 1, i);
      }
    }
    if forall i :: 1 <= i <= 11 ==> Blocked(used, Walk(start, rnd, i)) {
      SeenOnce(start, rnd, 11);
      forall v | v in Seen(start, rnd, 11) ensures v in used + {0} {
        var i := SeenAt(start, rnd, 11, v);
        WalkStaysInRange(start, rnd, i);
      }
      SubsetSize(Seen(start, rnd, 11), used + {0});
      assert false;
    }
  }

  /** The ids in use and the index the next search starts from. */
  datatype Ids = Ids(used: set<nat>, index: nat)

  /** After a session was created with the id that a search found. */
  function AfterCreation(s: Ids, rnd: Random): Ids {
    var id := Found(s.used, s.index, rnd, 1);
    Ids(s.used + {id}, id)
  }

  /** Random numbers for the first searches of a new directory. */
  function Picks(n: nat): Random {
    (_: nat) => if n == 0 then 3274 else 3275
  }

  /** After the first n creations with these random numbers. */
  function AfterCreations(n: nat): Ids {
    if n == 0 then Ids({}, 1) else AfterCreation(AfterCreations(n - 1), Picks(n - 1))
  }

  function TenId(n: nat): nat {
    3276 * n
  }

  lemma FoundAtOnce(s: Ids, n: nat)
    requires n < 10 && s.index == (if n == 0 then 1 else TenId(n)) && TenId(n + 1) !in s.used
    ensures Found(s.used, s.index, Picks(n), 1) == TenId(n + 1)
  {
    assert Walk(s.index, Picks(n), 0) == s.index;
    assert Walk(s.index, Picks(n), 1) == TenId(n + 1);
    hide Walk;
  }

  /** These are n ids, the first n multiples. */
  ghost predicate FirstIds(used: set<nat>, n: nat) {
    && |used| == n
    && (forall id :: id in used ==> FIRST_STATE_ID <= id <= TenId(n))
    && (forall k :: 1 <= k <= n ==> TenId(k) in used)
  }

  lemma OneMoreId(used: set<nat>, n: nat)
    requires FirstIds(used, n)
    ensures TenId(n + 1) !in used && FirstIds(used + {TenId(n + 1)}, n + 1)
  {
    assert TenId(n) < TenId(n + 1) && TenId(n + 1) >= FIRST_STATE_ID;
    hide TenId;
    forall k | 1 <= k <= n + 1 ensures TenId(k) in used + {TenId(n + 1)} {
    }
  }

  lemma {:induction false} TenCreations(n: nat)
    requires n <= 10
    ensures AfterCreations(n).index == if n == 0 then 1 else TenId(n)
    ensures FirstIds(AfterCreations(n).used, n)
  {
    if n > 0 {
      TenCreations(n - 1);
      var s := AfterCreations(n - 1);
      OneMoreId(s.used, n - 1);
      FoundAtOnce(s, n - 1);
      hide FirstIds, TenId, Found;
      assert AfterCreations(n) == Ids(s.used + {TenId(n)}, TenId(n));
    }
  }

  /** Random numbers for the search after that. */
  function Unlucky(i: nat): UInt32 {
    if i % 11 == 1 then 7 else 3275
  }

  lemma NextUnlucky(n: nat)
    requires n > 0
    ensures (TenId((n + 9) % 11) + Increment(Unlucky, n)) % ID_RANGE == TenId((n + 10) % 11)
  {
    var r := (n + 9) % 11;
    NextRemainder(n);
    assert Increment(Unlucky, n) == if r == 10 then 8 else MAX_STEP;
    hide Increment, Unlucky;
    assert TenId(r) <= 32760;
  }

  lemma NextRemainder(n: nat)
    requires n > 0
    ensures (n + 10) % 11 == if (n + 9) % 11 == 10 then 0 else (n + 9) % 11 + 1
    ensures n % 11 == 1 <==> (n + 9) % 11 == 10
  {
  }

  lemma {:induction false} UnluckyWalk(n: nat)
    ensures Walk(TenId(10), Unlucky, n) == TenId((n + 10) % 11)
  {
    if n > 0 {
      UnluckyWalk(n - 1);
      NextUnlucky(n);
      hide Increment, TenId;
    }
  }

  lemma UnluckyIsBlocked(used: set<nat>, n: nat)
    requires forall k :: 1 <= k <= 10 ==> TenId(k) in used
    ensures Blocked(used, Walk(TenId(10), Unlucky, n))
  {
    UnluckyWalk(n);
    hide Walk;
    var k := (n + 10) % 11;
    assert TenId(0) == 0;
    hide TenId;
    assert k == 0 || TenId(k) in used;
  }

  /** With ten it may find none: ten sessions created one after the other in a new directory may have
      these ids, and a search from where they leave the index may go round through them and zero
      until it gives up. So zero does not mean full. */
  lemma TenSessionsMayLeaveNone()
    ensures var s := AfterCreations(10);
            && |s.used| == 10 && (forall id :: id in s.used ==> FIRST_STATE_ID <= id < ID_RANGE)
            && Found(s.used, s.index, Unlucky, 1) == INVALID_SESSION_ID
  {
    hide AfterCreations, Walk, Blocked, Found, TenId;
    var s := AfterCreations(10);
    TenCreations(10);
    TenthFits();
    if Found(s.used, s.index, Unlucky, 1) != INVALID_SESSION_ID {
      var k := FoundIsFree(s.used, s.index, Unlucky, 1);
      UnluckyIsBlocked(s.used, k);
    }
  }

  lemma TenthFits()
    ensures TenId(10) < ID_RANGE
  {
  }
}
