/**
  The transformations the application applies to the offer bank (App.tsx): each
  lifecycle handler replaces the whole array by a `map` or a `filter` of it, and
  the view splits it into the pending ('bank') and the active list.
 */
module Bank {
  import opened Types

  /** Some offer in the bank carries `id`. */
  predicate HasId(bank: seq<Offer>, id: string)
  {
    exists i :: 0 <= i < |bank| && bank[i].id == id
  }

  /** No two offers in the bank share an id (what the id generator is meant to ensure). */
  predicate UniqueIds(bank: seq<Offer>)
  {
    forall i, j :: 0 <= i < j < |bank| ==> bank[i].id != bank[j].id
  }

  /** How many offers carry `id`. */
  function Count(bank: seq<Offer>, id: string): (n: nat)
    ensures n <= |bank|
    ensures n == 0 <==> !HasId(bank, id)
  {
    if bank == [] then 0
    else (if bank[0].id == id then 1 else 0) + Count(bank[1..], id)
  }

  lemma {:induction false} CountUnique(bank: seq<Offer>, id: string)
    requires UniqueIds(bank)
    ensures Count(bank, id) <= 1
  {
    if bank != [] {
      CountUnique(bank[1..], id);
      if bank[0].id == id && HasId(bank[1..], id) {
        assert false;
      }
    }
  }

  /** `handleRolloutOffer`'s map: every offer with the id becomes active, every other is kept as it is. */
  function Rollout(bank: seq<Offer>, id: string): (r: seq<Offer>)
    ensures |r| == |bank|
    ensures forall i :: 0 <= i < |bank| ==>
      r[i] == if bank[i].id == id then bank[i].(isActive := true) else bank[i]
  {
    if bank == [] then []
    else [if bank[0].id == id then bank[0].(isActive := true) else bank[0]] + Rollout(bank[1..], id)
  }

  /** Rolling the same offer out again changes nothing. */
  lemma RolloutIdempotent(bank: seq<Offer>, id: string)
    ensures Rollout(Rollout(bank, id), id) == Rollout(bank, id)
  {
  }

  /** `handleToggleActive`'s map: every offer with the id has its flag negated, every other is kept. */
  function Toggle(bank: seq<Offer>, id: string): (r: seq<Offer>)
    ensures |r| == |bank|
    ensures forall i :: 0 <= i < |bank| ==>
      r[i] == if bank[i].id == id then bank[i].(isActive := !bank[i].isActive) else bank[i]
  {
    if bank == [] then []
    else [if bank[0].id == id then bank[0].(isActive := !bank[0].isActive) else bank[0]] + Toggle(bank[1..], id)
  }

  /** Toggling twice restores the bank exactly. */
  lemma ToggleInvolution(bank: seq<Offer>, id: string)
    ensures Toggle(Toggle(bank, id), id) == bank
  {
  }

  /** The tab a toggled offer's new state belongs to. */
  function TabFor(isActive: bool): Tab
  {
    if isActive then ActiveTab else BankTab
  }

  /**
    The tab the deferred `setActiveTab` calls of `handleToggleActive` leave in
    place: one call is scheduled per matching offer, so the last one wins; None
    when no offer matches and the tab is not touched.
   */
  function ToggleHint(bank: seq<Offer>, id: string): (r: Option<Tab>)
    ensures r.Some? <==> HasId(bank, id)
  {
    if bank == [] then None
    else
      var later := ToggleHint(bank[1..], id);
      if later.Some? then later
      else if bank[0].id == id then Some(TabFor(!bank[0].isActive))
      else None
  }

  /**
    The hinted tab is the one the last offer carrying `id` moves to: its flag
    negated decides, and no later offer carries the id.
   */
  lemma {:induction false} ToggleHintIsLastMatch(bank: seq<Offer>, id: string)
    ensures ToggleHint(bank, id).Some? ==>
      exists k :: 0 <= k < |bank| && bank[k].id == id &&
        ToggleHint(bank, id).value == TabFor(!bank[k].isActive) &&
        forall m :: k < m < |bank| ==> bank[m].id != id
  {
    if bank != [] {
      var tail := bank[1..];
      ToggleHintIsLastMatch(tail, id);
      if ToggleHint(tail, id).Some? {
        var k :| 0 <= k < |tail| && tail[k].id == id &&
          ToggleHint(tail, id).value == TabFor(!tail[k].isActive) &&
          forall m :: k < m < |tail| ==> tail[m].id != id;
        assert bank[k + 1] == tail[k];
        forall m | k + 1 < m < |bank| ensures bank[m].id != id {
          assert bank[m] == tail[m - 1];
        }
      } else if bank[0].id == id {
        forall m | 0 < m < |bank| ensures bank[m].id != id {
          assert bank[m] == tail[m - 1];
        }
      }
    }
  }

  /** With unique ids the hinted tab is the one the toggled offer's new state belongs to. */
  lemma {:induction false} ToggleHintFollowsOffer(bank: seq<Offer>, id: string, i: int)
    requires UniqueIds(bank)
    requires 0 <= i < |bank| && bank[i].id == id
    ensures ToggleHint(bank, id) == Some(TabFor(Toggle(bank, id)[i].isActive))
  {
    if i == 0 {
      if HasId(bank[1..], id) {
        assert false;
      }
    } else {
      ToggleHintFollowsOffer(bank[1..], id, i - 1);
      assert bank[1..][i - 1] == bank[i];
    }
  }

  /** `handleDeleteOffer`'s filter: the offers whose id differs, in their original order. */
  function Delete(bank: seq<Offer>, id: string): (r: seq<Offer>)
    ensures forall o :: o in r <==> o in bank && o.id != id
    ensures |r| == |bank| - Count(bank, id)
  {
    if bank == [] then []
    else
      assert bank == [bank[0]] + bank[1..];
      (if bank[0].id == id then [] else [bank[0]]) + Delete(bank[1..], id)
  }

  /** Deleting distributes over concatenation: the survivors keep their relative order. */
  lemma {:induction false} DeleteAppend(a: seq<Offer>, b: seq<Offer>, id: string)
    ensures Delete(a + b, id) == Delete(a, id) + Delete(b, id)
  {
    if a == [] {
      assert a + b == b;
    } else {
      assert (a + b)[0] == a[0] && (a + b)[1..] == a[1..] + b;
      DeleteAppend(a[1..], b, id);
    }
  }

  /** Deleting an id that no offer carries is a no-op. */
  lemma {:induction false} DeleteAbsent(bank: seq<Offer>, id: string)
    requires !HasId(bank, id)
    ensures Delete(bank, id) == bank
  {
    if bank != [] {
      assert bank[0].id != id;
      assert !HasId(bank[1..], id) by {
        forall k | 0 <= k < |bank[1..]| ensures bank[1..][k].id != id {
          assert bank[1..][k] == bank[k + 1];
        }
      }
      DeleteAbsent(bank[1..], id);
    }
  }

  /** With unique ids, deleting a present id removes exactly one offer. */
  lemma DeleteUniqueShrinksByOne(bank: seq<Offer>, id: string)
    requires UniqueIds(bank) && HasId(bank, id)
    ensures |Delete(bank, id)| == |bank| - 1
  {
  }

  /** Rollout and toggle change flags only, so the ids stay unique. */
  lemma MapsKeepUniqueIds(bank: seq<Offer>, id: string)
    requires UniqueIds(bank)
    ensures UniqueIds(Rollout(bank, id)) && UniqueIds(Toggle(bank, id))
  {
    var r, t := Rollout(bank, id), Toggle(bank, id);
    assert forall i :: 0 <= i < |bank| ==> r[i].id == bank[i].id && t[i].id == bank[i].id;
  }

  /** Prepending an offer whose id the bank does not have keeps the ids unique. */
  lemma PrependFreshKeepsUnique(o: Offer, bank: seq<Offer>)
    requires UniqueIds(bank) && !HasId(bank, o.id)
    ensures UniqueIds([o] + bank)
  {
  }

  /** Deleting keeps the ids unique: the survivors are offers of the bank, in order. */
  lemma {:induction false} DeleteKeepsUniqueIds(bank: seq<Offer>, id: string)
    requires UniqueIds(bank)
    ensures UniqueIds(Delete(bank, id))
  {
    if bank != [] {
      var tail := bank[1..];
      assert UniqueIds(tail) by {
        forall i, j | 0 <= i < j < |tail| ensures tail[i].id != tail[j].id {
          assert tail[i] == bank[i + 1] && tail[j] == bank[j + 1];
        }
      }
      DeleteKeepsUniqueIds(tail, id);
      var rest := Delete(tail, id);
      if bank[0].id != id {
        assert !HasId(rest, bank[0].id) by {
          forall k | 0 <= k < |rest| ensures rest[k].id != bank[0].id {
            assert rest[k] in tail;
            var m :| 0 <= m < |tail| && tail[m] == rest[k];
            assert tail[m] == bank[m + 1];
          }
        }
        PrependFreshKeepsUnique(bank[0], rest);
      }
    }
  }

  /** The offers whose flag equals `active`, in bank order: `offerBank.filter(...)`. */
  function Select(bank: seq<Offer>, active: bool): (r: seq<Offer>)
    ensures |r| <= |bank|
    ensures forall k :: 0 <= k < |r| ==> r[k].isActive == active
  {
    if bank == [] then []
    else (if bank[0].isActive == active then [bank[0]] else []) + Select(bank[1..], active)
  }

  /** The filter keeps exactly the offers whose flag equals `active`. */
  lemma {:induction false} SelectMembers(bank: seq<Offer>, active: bool)
    ensures forall o :: o in Select(bank, active) <==> o in bank && o.isActive == active
  {
    if bank != [] {
      SelectMembers(bank[1..], active);
      assert bank == [bank[0]] + bank[1..];
    }
  }

  /** Selecting distributes over concatenation: each view keeps the bank's order. */
  lemma {:induction false} SelectAppend(a: seq<Offer>, b: seq<Offer>, active: bool)
    ensures Select(a + b, active) == Select(a, active) + Select(b, active)
  {
    if a == [] {
      assert a + b == b;
    } else {
      assert (a + b)[0] == a[0] && (a + b)[1..] == a[1..] + b;
      SelectAppend(a[1..], b, active);
    }
  }

  /** Every offer of the bank lands in exactly one of the two views, as often as it occurs. */
  lemma {:induction false} SelectSplits(bank: seq<Offer>)
    ensures multiset(Select(bank, false)) + multiset(Select(bank, true)) == multiset(bank)
  {
    if bank != [] {
      SelectSplits(bank[1..]);
      assert bank == [bank[0]] + bank[1..];
    }
  }

  /** `filteredOffers`: `bank` holds the pending offers, `active` the live ones. */
  datatype Views = Views(bank: seq<Offer>, active: seq<Offer>)

  function FilteredOffers(offerBank: seq<Offer>): (v: Views)
    ensures forall o :: o in v.bank <==> o in offerBank && !o.isActive
    ensures forall o :: o in v.active <==> o in offerBank && o.isActive
    ensures multiset(v.bank) + multiset(v.active) == multiset(offerBank)
    ensures |v.bank| + |v.active| == |offerBank|
  {
    SelectSplits(offerBank);
    SelectMembers(offerBank, false);
    SelectMembers(offerBank, true);
    assert |multiset(offerBank)| == |offerBank|;
    Views(Select(offerBank, false), Select(offerBank, true))
  }

  /** With unique ids, no id appears in both views. */
  lemma ViewsDisjointIds(offerBank: seq<Offer>)
    requires UniqueIds(offerBank)
    ensures var v := FilteredOffers(offerBank);
      forall p, q :: p in v.bank && q in v.active ==> p.id != q.id
  {
  }

  /**
    Rolling out an offer puts it in the 'active' view and leaves no offer with its
    id in the 'bank' view, even when several offers share the id.
   */
  lemma RolloutMovesToActive(offerBank: seq<Offer>, i: int)
    requires 0 <= i < |offerBank|
    ensures var after := FilteredOffers(Rollout(offerBank, offerBank[i].id));
      offerBank[i].(isActive := true) in after.active &&
      forall o :: o in after.bank ==> o.id != offerBank[i].id
  {
    var r := Rollout(offerBank, offerBank[i].id);
    assert r[i] == offerBank[i].(isActive := true);
  }
}
