/** The fee-grant collections and the meaning of one ledger batch. */
module FeegrantLedger {
  import opened Options

  /*
   A batch is the list of linked `use`/`revoke` history records that the cron job forwards to the
   `feegrant.db` queue.  Its effect on a stored grant is described here without any loop: the sum of the
   fees spent on the grant, the status of the last revoke, the hash of the last plain revoke.
   */

  type TxHash = string
  type Address = string

  datatype Status = Available | UseUp | Revoked | Fail

  datatype Action = Create | Use | Revoke

  /** The `amount`/`spend_limit` sub-document: absent or `{}`, present without a figure, or a figure. */
  datatype Money = NoCoin | BlankCoin | Coin(figure: int)

  /** A stored grant; its key in the collection is the hash of the transaction that created it. */
  datatype Grant = Grant(
    granter: Address, grantee: Address, timestamp: int, result: bool,
    spendLimit: Money, amount: Money, status: Status,
    expiration: Option<int>, expired: bool, revokeTx: Option<TxHash>)

  type Grants = map<TxHash, Grant>

  /** A record of the history collection; `id` is its `_id`, `origin` its `origin_feegrant_txhash`. */
  datatype Record = Record(
    id: nat, txHash: TxHash, origin: Option<TxHash>, granter: Address, grantee: Address,
    timestamp: int, result: bool, action: Action, status: Status, amount: Money)

  predicate Ended(g: Grant) {
    g.status == UseUp || g.status == Revoked
  }

  predicate Touched(e: Record, t: Option<TxHash>) {
    e.origin == t && (e.action == Use || e.action == Revoke)
  }

  predicate Touches(list: seq<Record>, t: Option<TxHash>) {
    exists e :: e in list && Touched(e, t)
  }

  predicate Ends(list: seq<Record>, t: Option<TxHash>) {
    exists e :: e in list && e.origin == t && e.action == Revoke
  }

  /** `parseInt(e.amount.amount.toString(), 10)` throws for a use record that carries no figure. */
  predicate WellFormed(list: seq<Record>) {
    forall e :: e in list && e.action == Use ==> e.amount.Coin?
  }

  function FeeOn(e: Record, t: Option<TxHash>): int {
    if e.action == Use && e.origin == t && e.amount.Coin? then e.amount.figure else 0
  }

  function SpentOn(list: seq<Record>, t: Option<TxHash>): int {
    if list == [] then 0 else SpentOn(list[..|list| - 1], t) + FeeOn(list[|list| - 1], t)
  }

  /** The status a batch leaves: that of its last revoke, `Available` when it has none. */
  function FinalStatus(list: seq<Record>, t: Option<TxHash>): Status {
    if list == [] then Available
    else
      var e := list[|list| - 1];
      if e.action == Revoke && e.origin == t then
        if e.status == UseUp then UseUp else Revoked
      else FinalStatus(list[..|list| - 1], t)
  }

  predicate PlainRevoke(e: Record) {
    e.action == Revoke && e.status != UseUp
  }

  /** The transaction of the last revoke that is not a use-up. */
  function RevokeTx(list: seq<Record>, t: Option<TxHash>): Option<TxHash> {
    if list == [] then None
    else
      var e := list[|list| - 1];
      if PlainRevoke(e) && e.origin == t then Some(e.txHash) else RevokeTx(list[..|list| - 1], t)
  }

  function Settle(g: Grant, list: seq<Record>, t: TxHash): Grant {
    g.(amount := if g.amount.Coin? then Coin(g.amount.figure - SpentOn(list, Some(t))) else g.amount,
       status := FinalStatus(list, Some(t)),
       revokeTx := if RevokeTx(list, Some(t)).Some? then RevokeTx(list, Some(t)) else g.revokeTx)
  }

  function After(g: Grant, list: seq<Record>, t: TxHash): Grant {
    if Touches(list, Some(t)) then Settle(g, list, t) else g
  }

  function ApplyBatch(grants: Grants, list: seq<Record>): Grants {
    map t | t in grants :: After(grants[t], list, t)
  }

  /** What a `feegrant.db` job does to the ledger: nothing at all when it throws. */
  function Outcome(grants: Grants, list: seq<Record>): Grants {
    if WellFormed(list) then ApplyBatch(grants, list) else grants
  }

  // ----- the expiry check -----

  predicate PastExpiration(g: Grant, now: int) {
    g.expiration.Some? && g.expiration.value <= now
  }

  predicate Due(g: Grant, now: int) {
    g.status == Available && PastExpiration(g, now)
  }

  /** `updateMany` over the available grants whose expiration has passed. */
  function Expire(grants: Grants, now: int): Grants {
    map t | t in grants :: Checked(grants[t], now)
  }

  function Checked(g: Grant, now: int): Grant {
    if Due(g, now) then g.(expired := true) else g
  }

  /**
   A check marks the available grants whose expiration has come and changes nothing else; a check at no later a time
   has nothing left to mark.
   */
  lemma ExpireMarksDue(grants: Grants, now: int, earlier: int)
    requires earlier <= now
    ensures Expire(grants, now).Keys == grants.Keys
    ensures forall t :: t in grants ==>
              var g, checked := grants[t], Expire(grants, now)[t];
              && checked == g.(expired := checked.expired)
              && (checked.expired <==>
                    g.expired || (g.status == Available && g.expiration.Some? && g.expiration.value <= now))
    ensures Expire(Expire(grants, now), earlier) == Expire(grants, now) == Expire(Expire(grants, earlier), now)
  {
  }

  /** Unmarked, past expiration, and available either before a job or after it, but not both. */
  predicate Contested(g: Grant, list: seq<Record>, t: TxHash, now: int) {
    !g.expired && PastExpiration(g, now) && Touches(list, Some(t)) && (g.status == Available <==> Ends(list, Some(t)))
  }

  /** It makes no difference whether the check or a job comes first exactly when no stored grant is contested. */
  lemma ExpireOrJobFirst(grants: Grants, list: seq<Record>, now: int)
    ensures Expire(Outcome(grants, list), now) == Outcome(Expire(grants, now), list)
       <==> WellFormed(list) ==> forall t :: t in grants ==> !Contested(grants[t], list, t, now)
  {
    if WellFormed(list) {
      forall t | t in grants
        ensures Expire(Outcome(grants, list), now)[t] == Outcome(Expire(grants, now), list)[t]
           <==> !Contested(grants[t], list, t, now)
      {
        ExpireOrSettleFirst(grants[t], list, t, now);
      }
    }
  }

  lemma ExpireOrSettleFirst(g: Grant, list: seq<Record>, t: TxHash, now: int)
    ensures Touches(list, Some(t)) ==>
              (Checked(Settle(g, list, t), now) == Settle(Checked(g, now), list, t) <==> !Contested(g, list, t, now))
  {
    EndsIff(list, Some(t));
  }

  // ----- a batch seen as the concatenation of two -----

  lemma {:induction false} SpentOnConcat(a: seq<Record>, b: seq<Record>, t: Option<TxHash>)
    ensures SpentOn(a + b, t) == SpentOn(a, t) + SpentOn(b, t)
  {
    if b == [] {
      assert a + b == a;
    } else {
      assert (a + b)[..|a + b| - 1] == a + b[..|b| - 1];
      SpentOnConcat(a, b[..|b| - 1], t);
    }
  }

  lemma {:induction false} StatusConcat(a: seq<Record>, b: seq<Record>, t: Option<TxHash>)
    ensures FinalStatus(a + b, t) == if Ends(b, t) then FinalStatus(b, t) else FinalStatus(a, t)
  {
    if b == [] {
      assert a + b == a;
    } else {
      var e := b[|b| - 1];
      assert (a + b)[..|a + b| - 1] == a + b[..|b| - 1];
      assert b == b[..|b| - 1] + [e];
      StatusConcat(a, b[..|b| - 1], t);
    }
  }

  lemma {:induction false} RevokeTxConcat(a: seq<Record>, b: seq<Record>, t: Option<TxHash>)
    ensures RevokeTx(a + b, t) == if RevokeTx(b, t).Some? then RevokeTx(b, t) else RevokeTx(a, t)
  {
    if b == [] {
      assert a + b == a;
    } else {
      assert (a + b)[..|a + b| - 1] == a + b[..|b| - 1];
      RevokeTxConcat(a, b[..|b| - 1], t);
    }
  }

  /** A batch ends a grant exactly when it holds a revoke of it. */
  lemma {:induction false} EndsIff(list: seq<Record>, t: Option<TxHash>)
    ensures Ends(list, t) <==> FinalStatus(list, t) != Available
    ensures FinalStatus(list, t) == Available || FinalStatus(list, t) == UseUp || FinalStatus(list, t) == Revoked
  {
    if list != [] {
      EndsIff(list[..|list| - 1], t);
      assert list == list[..|list| - 1] + [list[|list| - 1]];
    }
  }

  lemma {:induction false} UntouchedSpendsNothing(list: seq<Record>, t: Option<TxHash>)
    requires !Touches(list, t)
    ensures SpentOn(list, t) == 0 && RevokeTx(list, t) == None
  {
    if list != [] {
      var e := list[|list| - 1];
      assert !Touched(e, t);
      assert list == list[..|list| - 1] + [e];
      UntouchedSpendsNothing(list[..|list| - 1], t);
    }
  }

  /** No grant that batch `a` ends is used, without being ended again, by batch `b`. */
  predicate NoReopen(grants: Grants, a: seq<Record>, b: seq<Record>) {
    forall t :: t in grants && Ends(a, Some(t)) && Touches(b, Some(t)) ==> Ends(b, Some(t))
  }

  lemma TouchesConcat(a: seq<Record>, b: seq<Record>, t: Option<TxHash>)
    ensures Touches(a + b, t) <==> Touches(a, t) || Touches(b, t)
    ensures Ends(a + b, t) <==> Ends(a, t) || Ends(b, t)
    ensures Ends(a, t) ==> Touches(a, t)
  {
  }

  lemma SettleTwice(g: Grant, a: seq<Record>, b: seq<Record>, t: TxHash)
    ensures Settle(Settle(g, a, t), b, t) == Settle(g, a + b, t) <==> (Ends(a, Some(t)) ==> Ends(b, Some(t)))
  {
    var k := Some(t);
    SpentOnConcat(a, b, k);
    StatusConcat(a, b, k);
    RevokeTxConcat(a, b, k);
    EndsIff(a, k);
    EndsIff(b, k);
  }

  lemma SettleOnce(g: Grant, a: seq<Record>, b: seq<Record>, t: TxHash)
    ensures !Touches(a, Some(t)) ==> Settle(g, a + b, t) == Settle(g, b, t)
    ensures !Touches(b, Some(t)) ==> Settle(g, a + b, t) == Settle(g, a, t)
  {
    var k := Some(t);
    SpentOnConcat(a, b, k);
    StatusConcat(a, b, k);
    RevokeTxConcat(a, b, k);
    EndsIff(a, k);
    EndsIff(b, k);
    TouchesConcat(a, b, k);
    TouchesConcat(b, a, k);
    if !Touches(a, k) { UntouchedSpendsNothing(a, k); }
    if !Touches(b, k) { UntouchedSpendsNothing(b, k); }
  }

  lemma SplitOneGrant(g: Grant, a: seq<Record>, b: seq<Record>, t: TxHash)
    ensures After(After(g, a, t), b, t) == After(g, a + b, t) <==>
            (Ends(a, Some(t)) && Touches(b, Some(t)) ==> Ends(b, Some(t)))
  {
    TouchesConcat(a, b, Some(t));
    SettleTwice(g, a, b, t);
    SettleOnce(g, a, b, t);
  }

  lemma SplitApplied(grants: Grants, a: seq<Record>, b: seq<Record>)
    ensures ApplyBatch(ApplyBatch(grants, a), b) == ApplyBatch(grants, a + b) <==> NoReopen(grants, a, b)
  {
    forall t | t in grants
      ensures ApplyBatch(ApplyBatch(grants, a), b)[t] == ApplyBatch(grants, a + b)[t]
         <==> (Ends(a, Some(t)) && Touches(b, Some(t)) ==> Ends(b, Some(t)))
    {
      SplitOneGrant(grants[t], a, b, t);
    }
  }

  /** What a batch would set is what the grant already has. */
  predicate LeavesAlone(g: Grant, list: seq<Record>, t: TxHash) {
    && (g.amount.Coin? ==> SpentOn(list, Some(t)) == 0)
    && FinalStatus(list, Some(t)) == g.status
    && (RevokeTx(list, Some(t)).Some? ==> RevokeTx(list, Some(t)) == g.revokeTx)
  }

  predicate NoEffect(grants: Grants, list: seq<Record>) {
    forall t :: t in grants && Touches(list, Some(t)) ==> LeavesAlone(grants[t], list, t)
  }

  lemma NoEffectIff(grants: Grants, list: seq<Record>)
    ensures ApplyBatch(grants, list) == grants <==> NoEffect(grants, list)
  {
  }

  lemma WellFormedConcat(a: seq<Record>, b: seq<Record>)
    ensures WellFormed(a + b) <==> WellFormed(a) && WellFormed(b)
  {
  }

  /** A half that throws takes nothing with it when it runs alone, and the other half with it when they run as one. */
  predicate Splittable(grants: Grants, a: seq<Record>, b: seq<Record>) {
    if WellFormed(a) && WellFormed(b) then NoReopen(grants, a, b)
    else (WellFormed(a) ==> NoEffect(grants, a)) && (WellFormed(b) ==> NoEffect(grants, b))
  }

  /**
   Splitting a batch into two jobs changes nothing exactly when, with both halves free of blank fees, the second
   reopens no grant the first ended, and otherwise neither half that would run has any effect.
   */
  lemma SplitBatch(grants: Grants, a: seq<Record>, b: seq<Record>)
    ensures Outcome(Outcome(grants, a), b) == Outcome(grants, a + b) <==> Splittable(grants, a, b)
  {
    WellFormedConcat(a, b);
    SplitApplied(grants, a, b);
    NoEffectIff(grants, a);
    NoEffectIff(grants, b);
  }

  // ----- the order of the records in a batch -----

  predicate Agree(e: Record, f: Record) {
    (e.status == UseUp <==> f.status == UseUp) && (e.status == UseUp || e.txHash == f.txHash)
  }

  /** Two revokes of one stored grant. */
  predicate RevokesOfOne(grants: Grants, e: Record, f: Record) {
    e.action == Revoke && f.action == Revoke && e.origin == f.origin && e.origin.Some? && e.origin.value in grants
  }

  /** The revokes of each stored grant agree on what they leave behind. */
  predicate RevokesAgree(grants: Grants, list: seq<Record>) {
    forall e, f | e in list && f in list && RevokesOfOne(grants, e, f) :: Agree(e, f)
  }

  lemma PullOut(list: seq<Record>, e: Record) returns (before: seq<Record>, after: seq<Record>)
    requires e in multiset(list)
    ensures list == before + ([e] + after)
    ensures multiset(list) == multiset(before + after) + multiset{e}
  {
    var j :| 0 <= j < |list| && list[j] == e;
    before, after := list[..j], list[j + 1..];
    assert list == before + ([e] + after);
  }

  lemma LastAside(a: seq<Record>)
    requires a != []
    ensures a[|a| - 1] in multiset(a)
    ensures multiset(a[..|a| - 1]) == multiset(a) - multiset{a[|a| - 1]}
  {
    assert a == a[..|a| - 1] + [a[|a| - 1]];
  }

  lemma {:induction false} SpentOnPermutation(a: seq<Record>, b: seq<Record>, t: Option<TxHash>)
    requires multiset(a) == multiset(b)
    ensures SpentOn(a, t) == SpentOn(b, t)
  {
    if a == [] {
      assert |b| == |multiset(b)| == 0;
    } else {
      var e, rest := a[|a| - 1], a[..|a| - 1];
      LastAside(a);
      var x, y := PullOut(b, e);
      SpentOnPermutation(rest, x + y, t);
      SpentAroundOne(x, e, y, t);
    }
  }

  lemma SpentAroundOne(x: seq<Record>, e: Record, y: seq<Record>, t: Option<TxHash>)
    ensures SpentOn(x + ([e] + y), t) == SpentOn(x + y, t) + FeeOn(e, t)
  {
    SpentOnConcat(x, y, t);
    SpentOnConcat(x, [e] + y, t);
    SpentOnConcat([e], y, t);
    assert SpentOn([e], t) == SpentOn([], t) + FeeOn(e, t);
  }

  /** The status a batch leaves is that of one of its revokes, and the revoke hash that of a plain one. */
  lemma {:induction false} StatusWitness(list: seq<Record>, t: Option<TxHash>)
    ensures Ends(list, t) ==> exists e :: e in list && e.origin == t && e.action == Revoke &&
                                FinalStatus(list, t) == if e.status == UseUp then UseUp else Revoked
  {
    if list != [] {
      assert list == list[..|list| - 1] + [list[|list| - 1]];
      StatusWitness(list[..|list| - 1], t);
    }
  }

  lemma {:induction false} RevokeTxWitness(list: seq<Record>, t: Option<TxHash>)
    ensures (exists e :: e in list && e.origin == t && PlainRevoke(e)) <==> RevokeTx(list, t).Some?
    ensures RevokeTx(list, t).Some? ==> exists e :: e in list && e.origin == t && PlainRevoke(e) &&
                                          RevokeTx(list, t) == Some(e.txHash)
  {
    if list != [] {
      assert list == list[..|list| - 1] + [list[|list| - 1]];
      RevokeTxWitness(list[..|list| - 1], t);
    }
  }

  lemma SameStatus(grants: Grants, a: seq<Record>, b: seq<Record>, t: TxHash)
    requires multiset(a) == multiset(b) && t in grants && RevokesAgree(grants, a)
    ensures FinalStatus(a, Some(t)) == FinalStatus(b, Some(t))
  {
    SameMembers(a, b);
    EndsIff(a, Some(t));
    EndsIff(b, Some(t));
    StatusWitness(a, Some(t));
    StatusWitness(b, Some(t));
  }

  lemma SameRevokeTx(grants: Grants, a: seq<Record>, b: seq<Record>, t: TxHash)
    requires multiset(a) == multiset(b) && t in grants && RevokesAgree(grants, a)
    ensures RevokeTx(a, Some(t)) == RevokeTx(b, Some(t))
  {
    SameMembers(a, b);
    RevokeTxWitness(a, Some(t));
    RevokeTxWitness(b, Some(t));
  }

  lemma PermuteOneGrant(g: Grant, grants: Grants, a: seq<Record>, b: seq<Record>, t: TxHash)
    requires multiset(a) == multiset(b) && t in grants && RevokesAgree(grants, a)
    ensures After(g, a, t) == After(g, b, t)
  {
    SameMembers(a, b);
    SpentOnPermutation(a, b, Some(t));
    SameStatus(grants, a, b, t);
    SameRevokeTx(grants, a, b, t);
  }

  lemma SameMembers(a: seq<Record>, b: seq<Record>)
    requires multiset(a) == multiset(b)
    ensures forall e :: e in a <==> e in b
  {
    assert forall e :: e in a <==> e in multiset(a);
    assert forall e :: e in b <==> e in multiset(b);
  }

  ghost predicate SameForAllOrders(grants: Grants, a: seq<Record>) {
    forall b: seq<Record> | multiset(b) == multiset(a) :: Outcome(grants, b) == Outcome(grants, a)
  }

  /** Any two different records of a batch can be moved to its end, in either order. */
  lemma MoveToEnd(a: seq<Record>, e: Record, f: Record) returns (core: seq<Record>)
    requires e in a && f in a && e != f
    ensures multiset(core + [e, f]) == multiset(a) == multiset(core + [f, e])
  {
    assert e in multiset(a) && f in multiset(a);
    var x, y := PullOut(a, e);
    assert f in multiset(x + y);
    var v, w := PullOut(x + y, f);
    core := v + w;
  }

  lemma LastDecides(g: Grant, core: seq<Record>, e: Record, f: Record, t: TxHash)
    requires e.action == f.action == Revoke && e.origin == f.origin == Some(t) && !Agree(e, f)
    ensures Settle(g, core + [e, f], t) != Settle(g, core + [f, e], t)
  {
  }

  /** Two disagreeing revokes of a stored grant: whichever comes last decides. */
  lemma DisagreementShows(grants: Grants, a: seq<Record>, e: Record, f: Record)
    requires WellFormed(a) && e in a && f in a && RevokesOfOne(grants, e, f) && !Agree(e, f)
    ensures !SameForAllOrders(grants, a)
  {
    var t := e.origin.value;
    var core := MoveToEnd(a, e, f);
    var x, y := core + [e, f], core + [f, e];
    assert Touched(e, Some(t)) && e == x[|core|] && e == y[|core| + 1];
    assert e in x && e in y;
    SameMembers(a, x);
    SameMembers(a, y);
    assert WellFormed(x) && WellFormed(y);
    LastDecides(grants[t], core, e, f, t);
    assert Outcome(grants, x)[t] == Settle(grants[t], x, t);
    assert Outcome(grants, y)[t] == Settle(grants[t], y, t);
    assert multiset(x) == multiset(a) == multiset(y);
  }

  /** A batch may be reordered freely exactly when it throws anyway or the revokes of each stored grant agree. */
  lemma PermuteBatch(grants: Grants, a: seq<Record>)
    ensures SameForAllOrders(grants, a) <==> !WellFormed(a) || RevokesAgree(grants, a)
  {
    if WellFormed(a) && !RevokesAgree(grants, a) {
      var e, f :| e in a && f in a && RevokesOfOne(grants, e, f) && !Agree(e, f);
      DisagreementShows(grants, a, e, f);
    } else {
      forall b: seq<Record> | multiset(b) == multiset(a)
        ensures Outcome(grants, b) == Outcome(grants, a)
      {
        SameMembers(a, b);
        if WellFormed(a) { PermuteAgreed(grants, a, b); }
      }
    }
  }

  lemma PermuteAgreed(grants: Grants, a: seq<Record>, b: seq<Record>)
    requires multiset(b) == multiset(a) && RevokesAgree(grants, a)
    ensures ApplyBatch(grants, b) == ApplyBatch(grants, a)
  {
    forall t | t in grants
      ensures ApplyBatch(grants, b)[t] == ApplyBatch(grants, a)[t]
    {
      PermuteOneGrant(grants[t], grants, a, b, t);
    }
  }

  // ----- inputs on which splitting and reordering do make a difference -----

  function SomeGrant(): Grant {
    Grant("a", "b", 0, true, Coin(10), Coin(10), Available, None, false, None)
  }

  function UseOf(t: TxHash, fee: Money): Record {
    Record(0, "use", Some(t), "a", "b", 1, true, Use, Available, fee)
  }

  function RevokeOf(t: TxHash, status: Status): Record {
    Record(1, "end", Some(t), "a", "b", 2, true, Revoke, status, NoCoin)
  }

  /** A fee of 3 and a blank fee: as two jobs the 3 are taken off, as one job the ledger stays as it was. */
  lemma BlankFeeSplits(t: TxHash)
    ensures var grants, a, b := map[t := SomeGrant()], [UseOf(t, Coin(3))], [UseOf(t, NoCoin)];
            Outcome(Outcome(grants, a), b)[t].amount == Coin(7) && Outcome(grants, a + b) == grants
  {
    var a, b := [UseOf(t, Coin(3))], [UseOf(t, NoCoin)];
    assert a[0] in a && b[0] in b && b[0] in a + b;
    assert Touched(a[0], Some(t)) && a[..0] == [];
    assert SpentOn(a, Some(t)) == SpentOn([], Some(t)) + 3;
  }

  /** A revoke and a use of the revoked grant: as two jobs the grant is available again, as one it is not. */
  lemma LateUseSplits(t: TxHash)
    ensures var grants, a, b := map[t := SomeGrant()], [RevokeOf(t, Revoked)], [UseOf(t, Coin(3))];
            Outcome(Outcome(grants, a), b)[t].status == Available && Outcome(grants, a + b)[t].status == Revoked
  {
    var a, b := [RevokeOf(t, Revoked)], [UseOf(t, Coin(3))];
    assert a[0] in a && b[0] in b && a[0] in a + b;
    assert Touched(a[0], Some(t)) && Touched(b[0], Some(t));
    assert FinalStatus(b, Some(t)) == FinalStatus([], Some(t)) && b[..0] == [];
    assert (a + b)[..1] == a && a[..0] == [];
    assert FinalStatus(a + b, Some(t)) == FinalStatus(a, Some(t));
  }

  /** A plain revoke and a use-up of one grant: the last decides. */
  lemma TwoEndingsReorder(t: TxHash)
    ensures var grants, a, b := map[t := SomeGrant()], [RevokeOf(t, Revoked), RevokeOf(t, UseUp)],
                                [RevokeOf(t, UseUp), RevokeOf(t, Revoked)];
            multiset(a) == multiset(b) && Outcome(grants, a)[t].status == UseUp &&
              Outcome(grants, b)[t].status == Revoked
  {
    var x, y := RevokeOf(t, Revoked), RevokeOf(t, UseUp);
    var a, b := [x, y], [y, x];
    assert a[0] in a && b[0] in b && Touched(x, Some(t)) && Touched(y, Some(t));
  }

  // ----- a job read off its records -----

  lemma {:induction false} LastStatus(list: seq<Record>, t: TxHash, i: nat)
    requires i <= |list| && (i > 0 ==> list[i - 1].origin == Some(t) && list[i - 1].action == Revoke)
    requires forall k :: i <= k < |list| ==> !(list[k].origin == Some(t) && list[k].action == Revoke)
    ensures FinalStatus(list, Some(t)) ==
            if i == 0 then Available else if list[i - 1].status == UseUp then UseUp else Revoked
  {
    if i < |list| { LastStatus(list[..|list| - 1], t, i); }
  }

  lemma {:induction false} LastPlain(list: seq<Record>, t: TxHash, j: nat)
    requires j <= |list|
    requires j > 0 ==> list[j - 1].origin == Some(t) && list[j - 1].action == Revoke && list[j - 1].status != UseUp
    requires forall k :: j <= k < |list| ==>
               !(list[k].origin == Some(t) && list[k].action == Revoke && list[k].status != UseUp)
    ensures RevokeTx(list, Some(t)) == if j == 0 then None else Some(list[j - 1].txHash)
  {
    if j < |list| { LastPlain(list[..|list| - 1], t, j); }
  }

  /**
   A job of readable records settles a grant that one of them uses or revokes: with `i` and `j` behind the last revoke
   and the last one that is no use-up, the grant takes the status of the one and the transaction of the other.
   */
  lemma {:induction false} JobSettles(grants: Grants, list: seq<Record>, t: TxHash, i: nat, j: nat)
    requires t in grants && forall e :: e in list && e.action == Use ==> e.amount.Coin?
    requires exists e :: e in list && e.origin == Some(t) && (e.action == Use || e.action == Revoke)
    requires i <= |list| && (i > 0 ==> list[i - 1].origin == Some(t) && list[i - 1].action == Revoke)
    requires forall k :: i <= k < |list| ==> !(list[k].origin == Some(t) && list[k].action == Revoke)
    requires j <= |list|
    requires j > 0 ==> list[j - 1].origin == Some(t) && list[j - 1].action == Revoke && list[j - 1].status != UseUp
    requires forall k :: j <= k < |list| ==>
               !(list[k].origin == Some(t) && list[k].action == Revoke && list[k].status != UseUp)
    ensures var before, after := grants[t], Outcome(grants, list)[t];
            && after == before.(amount := after.amount, status := after.status, revokeTx := after.revokeTx)
            && after.status == (if i == 0 then Available else if list[i - 1].status == UseUp then UseUp else Revoked)
            && after.revokeTx == (if j == 0 then before.revokeTx else Some(list[j - 1].txHash))
            && (before.amount.Coin? ==>
                  after.amount == Coin(before.amount.figure - SpentOn(list, Some(t))))
            && (!before.amount.Coin? ==> after.amount == before.amount)
  {
    LastStatus(list, t, i);
    LastPlain(list, t, j);
    assert Touches(list, Some(t));
  }

  /** The fees spent are those of the use records linked to the grant. */
  lemma {:induction false} SpentAddsUp(list: seq<Record>, e: Record, t: TxHash)
    ensures SpentOn([], Some(t)) == 0
    ensures SpentOn(list + [e], Some(t)) ==
            SpentOn(list, Some(t))
            + if e.action == Use && e.origin == Some(t) && e.amount.Coin? then e.amount.figure else 0
  {
    assert (list + [e])[..|list|] == list;
  }
}
