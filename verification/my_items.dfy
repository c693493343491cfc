/**
 * A signed-in user's own page: the items they reported, with delete, and the
 * claims others made on those items, which the owner may approve or reject.
 */
module MyItems {
  import opened Wrappers
  import opened Schema
  import Seqs

  /** What opening the page does: send a visitor without a session to sign in, or load that user's data. */
  datatype Opening = SignInFirst | LoadFor(userId: string)

  function Open(session: Option<string>): (o: Opening)
    ensures o.SignInFirst? <==> session.None?
    ensures o.LoadFor? ==> session == Some(o.userId)
  {
    match session
    case None => SignInFirst
    case Some(u) => LoadFor(u)
  }

  /**
   * `handleDeleteItem`'s effect on the list shown: when the delete succeeds, the items with
   * that id disappear; when it reports an error, the list is kept as it was.
   */
  function AfterDelete(items: seq<Item>, id: string, deleteError: Option<string>): (r: seq<Item>)
    ensures deleteError.Some? ==> r == items
    ensures Seqs.IsSubsequence(r, items)
    ensures deleteError.None? ==> forall k :: 0 <= k < |r| ==> r[k].id != id
    ensures forall k :: 0 <= k < |items| && items[k].id != id ==> items[k] in r
  {
    if deleteError.Some? then
      Seqs.SubsequenceReflexive(items);
      items
    else
      Seqs.FilterIsSubsequence(items, (it: Item) => it.id != id);
      Seqs.Filter(items, (it: Item) => it.id != id)
  }

  /** Deleting loses exactly the items with that id: the count drops by their number. */
  lemma DeleteRemovesExactlyThatId(items: seq<Item>, id: string)
    ensures |AfterDelete(items, id, None)| + Seqs.CountWhere(items, (it: Item) => it.id == id) == |items|
  {
    Seqs.CountPartition(items, (it: Item) => it.id != id, (it: Item) => it.id == id);
  }

  /** Deleting an id no item has leaves the list unchanged. */
  lemma DeletingAnAbsentIdChangesNothing(items: seq<Item>, id: string)
    requires forall k :: 0 <= k < |items| ==> items[k].id != id
    ensures AfterDelete(items, id, None) == items
  {
    Seqs.FilterAll(items, (it: Item) => it.id != id);
  }

  /** Approve and Reject appear only on a received claim that is still pending. */
  function DecisionOffered(c: Claim): (offered: bool)
    ensures c.status == Some("approved") || c.status == Some("rejected") || c.status.None? ==> !offered
    ensures c.status == Some("pending") ==> offered
  {
    c.status == Some("pending")
  }

  /** `handleUpdateClaimStatus` applied by id: the claims with that id get exactly the requested status. */
  function SetClaimStatus(claims: seq<Claim>, id: string, status: string): (r: seq<Claim>)
    ensures |r| == |claims|
    ensures forall k :: 0 <= k < |claims| && claims[k].id == id ==> r[k] == claims[k].(status := Some(status))
    ensures forall k :: 0 <= k < |claims| && claims[k].id != id ==> r[k] == claims[k]
  {
    seq(|claims|, k requires 0 <= k < |claims| => if claims[k].id == id then claims[k].(status := Some(status)) else claims[k])
  }

  /** Once the owner decides, the claim is offered no further decision; other claims keep theirs. */
  lemma OwnerDecisionIsFinal(claims: seq<Claim>, id: string, approve: bool)
    ensures forall k :: 0 <= k < |claims| && claims[k].id == id ==>
      !DecisionOffered(SetClaimStatus(claims, id, if approve then "approved" else "rejected")[k])
    ensures forall k :: 0 <= k < |claims| && claims[k].id != id ==>
      DecisionOffered(SetClaimStatus(claims, id, if approve then "approved" else "rejected")[k]) == DecisionOffered(claims[k])
  {
  }

  datatype BadgeVariant = Default | Destructive | Outline

  /** The claim status badge on both claim tabs. */
  function ClaimBadge(status: Option<string>): (b: BadgeVariant)
    ensures b == Default <==> status == Some("approved")
    ensures b == Destructive <==> status == Some("rejected")
  {
    if status == Some("approved") then Default
    else if status == Some("rejected") then Destructive
    else Outline
  }

  /** A pending claim, the only kind with buttons, shows the outline badge; a decided one never does. */
  lemma PendingClaimsShowOutline(c: Claim, approve: bool)
    ensures DecisionOffered(c) ==> ClaimBadge(c.status) == Outline
    ensures ClaimBadge(Some(if approve then "approved" else "rejected")) != Outline
  {
  }
}
