/** What opening and closing a mailbox grant and withdraw. */
module MailboxAccess {
  import opened MailboxModel
  import opened MailboxInvariant

  /** A mailbox with its creator as owner and as its only sender or receiver. */
  function Created(id: int, name: string, pid: int, write: bool): Mailbox {
    Mailbox(id, name, [pid], if write then [pid] else [], if write then [] else [pid], [])
  }

  /** `after` is `before` with the caller entered once more: last among the senders when it
      opens for writing, last among the receivers otherwise. */
  predicate Entered(before: Mailbox, after: Mailbox, pid: int, write: bool) {
    && after.senders == before.senders + (if write then [pid] else [])
    && after.receivers == before.receivers + (if write then [] else [pid])
    && after.id == before.id && after.name == before.name
    && after.owner == before.owner && after.messages == before.messages
  }

  /** Opening fails only for the two stated reasons, the limit being checked before the name.
      Otherwise the caller is entered in the mailbox with that name, which has the id returned,
      and nothing else changes. */
  predicate OpenRule(boxes: seq<Mailbox>, lastId: int, pid: int, name: string, create: bool,
                     write: bool, o: Boxes)
  {
    var known := exists i :: 0 <= i < |boxes| && boxes[i].name == name;
    && (o.reply == EMailboxFull <==> create && |boxes| == 5)
    && (o.reply == ENotFound <==> !create && !known)
    && (o.reply.Opened? || o.reply == EMailboxFull || o.reply == ENotFound)
    && (!o.reply.Opened? ==> o.boxes == boxes && o.lastId == lastId)
    && (o.reply.Opened? && known ==>
          && |o.boxes| == |boxes| && o.lastId == lastId
          && forall i :: 0 <= i < |boxes| ==>
            if boxes[i].name == name
            then o.reply.id == boxes[i].id && Entered(boxes[i], o.boxes[i], pid, write)
            else o.boxes[i] == boxes[i])
    && (o.reply.Opened? && !known ==>
          && o.reply.id == lastId && o.lastId == lastId + 1
          && o.boxes == boxes + [Created(lastId, name, pid, write)])
  }

  lemma OpenGrants(boxes: seq<Mailbox>, lastId: int, pid: int, name: string, create: bool, write: bool)
    requires BoxesOk(boxes, lastId)
    ensures OpenRule(boxes, lastId, pid, name, create, write,
                     OpenBoxes(boxes, lastId, pid, name, create, write))
  {
    hide BoxAt, NameAt;
    var o := OpenBoxes(boxes, lastId, pid, name, create, write);
    var b := NameAt(boxes, name);
    assert [] + [pid] == [pid];
    if b < |boxes| {
      assert boxes[b].senders + [] == boxes[b].senders && boxes[b].receivers + [] == boxes[b].receivers;
    }
  }

  lemma RemoveOnly(xs: seq<int>, x: int)
    requires x !in xs
    ensures RemoveFirst(xs, x) == xs && RemoveFirst(xs + [x], x) == xs
  {
    var ys := xs + [x];
    assert ys[|xs|] == x;
    assert IndexOf(ys, x) == |xs|;
  }

  /** Closing undoes opening: a caller with no other entry in the mailbox, who does not own it,
      leaves every mailbox as it was; and a mailbox made by that open goes again, its id spent. */
  lemma CloseUndoesOpen(boxes: seq<Mailbox>, lastId: int, pid: int, name: string, create: bool, write: bool)
    requires BoxesOk(boxes, lastId)
    requires
      var i := NameAt(boxes, name);
      i < |boxes| ==>
        pid !in boxes[i].senders && pid !in boxes[i].receivers && boxes[i].owner != [pid]
        && |boxes[i].owner| <= 1 && (boxes[i].senders != [] || boxes[i].receivers != [])
    ensures
      var o := OpenBoxes(boxes, lastId, pid, name, create, write);
      o.reply.Opened? ==>
        CloseBoxes(o.boxes, o.lastId, pid, o.reply.id) == Boxes(boxes, o.lastId, Ok)
  {
    var o := OpenBoxes(boxes, lastId, pid, name, create, write);
    hide BoxAt, RemoveFirst;
    if o.reply.Opened? {
      var i := NameAt(boxes, name);
      BoxAtUnique(o.boxes, i);
      var before := if i < |boxes| then boxes[i] else Mailbox(lastId, name, [], [], [], []);
      RemoveOnly(before.senders, pid);
      RemoveOnly(before.receivers, pid);
      assert [] + [pid] == [pid];
      if i == |boxes| {
        assert Without(o.boxes, i) == boxes;
      }
    }
  }

  /** `ys` is `xs` without the first entry for `x`, if there is one; the others keep their order. */
  predicate Struck(xs: seq<int>, x: int, ys: seq<int>) {
    if x in xs
    then exists k ::
      0 <= k < |xs| && xs[k] == x && (forall j :: 0 <= j < k ==> xs[j] != x) && ys == xs[..k] + xs[k + 1..]
    else ys == xs
  }

  /** `after` is `before` without one entry of the caller on each list, and without an owner who
      leaves. */
  predicate Left(before: Mailbox, after: Mailbox, pid: int) {
    && Struck(before.senders, pid, after.senders)
    && Struck(before.receivers, pid, after.receivers)
    && after.owner == (if [pid] <= before.owner then [] else before.owner)
    && after.id == before.id && after.name == before.name && after.messages == before.messages
  }

  /** Closing an unknown id changes nothing. Otherwise the caller leaves that mailbox, which is
      unlinked exactly when nobody is left on either list; every other mailbox stays. */
  predicate CloseRule(boxes: seq<Mailbox>, lastId: int, pid: int, id: int, o: Boxes) {
    && o.lastId == lastId
    && ((forall b :: 0 <= b < |boxes| ==> boxes[b].id != id) ==> o.boxes == boxes && o.reply == ENotFound)
    && forall b :: 0 <= b < |boxes| && boxes[b].id == id ==>
         && o.reply == Ok
         && (if Struck(boxes[b].senders, pid, []) && Struck(boxes[b].receivers, pid, [])
             then o.boxes == boxes[..b] + boxes[b + 1..]
             else
               && |o.boxes| == |boxes| && Left(boxes[b], o.boxes[b], pid)
               && forall j :: 0 <= j < |boxes| && j != b ==> o.boxes[j] == boxes[j])
  }

  lemma CloseWithdraws(boxes: seq<Mailbox>, lastId: int, pid: int, id: int)
    requires BoxesOk(boxes, lastId)
    ensures CloseRule(boxes, lastId, pid, id, CloseBoxes(boxes, lastId, pid, id))
  {
    hide BoxAt, RemoveFirst, Struck;
    var b := BoxAt(boxes, id);
    if b < |boxes| {
      RemoveStrikes(boxes[b].senders, pid);
      RemoveStrikes(boxes[b].receivers, pid);
      StruckOnce(boxes[b].senders, pid, Leave(boxes[b], pid).senders, []);
      StruckOnce(boxes[b].receivers, pid, Leave(boxes[b], pid).receivers, []);
    }
  }

  lemma RemoveStrikes(xs: seq<int>, x: int)
    ensures Struck(xs, x, RemoveFirst(xs, x))
  {
    hide IndexOf;
    assert x in xs ==> IndexOf(xs, x) < |xs|;
  }

  /** There is only one way to strike out an entry. */
  lemma StruckOnce(xs: seq<int>, x: int, ys: seq<int>, zs: seq<int>)
    requires Struck(xs, x, ys)
    ensures Struck(xs, x, zs) <==> zs == ys
  {
  }
}
