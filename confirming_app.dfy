/** The archive component of index.tsx: the record store, the selected tab,
    the paper form, and a confirmation dialog that holds back deletes and
    moves to Submitted or Rejected until the user confirms them. */
module ConfirmingApp {
  import opened Types
  import opened Records

  /** The tone of the confirmation dialog. */
  datatype Tone = Danger | Warning | Info

  /** What the confirmation dialog is waiting to commit. */
  datatype PendingAction =
    | Idle
    | AwaitDelete(id: PaperId, tone: Tone)
    | AwaitStatus(id: PaperId, newStatus: PaperStatus, tone: Tone)

  class App {
    var papers: seq<PaperRecord>
    var activeTab: PaperStatus
    var modalOpen: bool
    var editing: Option<PaperRecord>
    var pending: PendingAction

    /** Starts from the saved records on the Accepted tab, with nothing open. */
    constructor (saved: seq<PaperRecord>)
      ensures papers == saved && activeTab == Accepted
      ensures !modalOpen && editing == None && pending == Idle
    {
      papers := saved;
      activeTab := Accepted;
      modalOpen := false;
      editing := None;
      pending := Idle;
    }

    /** The records shown under the selected tab, in store order. */
    function DisplayedPapers(): (shown: seq<PaperRecord>)
      reads this
      ensures shown == ByStatus(papers, activeTab)
      ensures forall p :: p in shown <==> p in papers && p.status == activeTab
      ensures |shown| <= |papers|
    {
      ByStatus(papers, activeTab)
    }

    /** Clicking a tab selects it. */
    method SelectTab(tab: PaperStatus)
      modifies this
      ensures activeTab == tab
      ensures papers == old(papers) && modalOpen == old(modalOpen)
      ensures editing == old(editing) && pending == old(pending)
    {
      activeTab := tab;
    }

    /** The add button opens an empty form. */
    method OpenNew()
      modifies this
      ensures modalOpen && editing == None
      ensures papers == old(papers) && activeTab == old(activeTab) && pending == old(pending)
    {
      editing := None;
      modalOpen := true;
    }

    /** The edit button of a card opens the form on that record. */
    method StartEditing(p: PaperRecord)
      modifies this
      ensures modalOpen && editing == Some(p)
      ensures papers == old(papers) && activeTab == old(activeTab) && pending == old(pending)
    {
      editing := Some(p);
      modalOpen := true;
    }

    /** Closing the form hides it; the record being edited stays selected. */
    method CloseModal()
      modifies this
      ensures !modalOpen
      ensures papers == old(papers) && activeTab == old(activeTab)
      ensures editing == old(editing) && pending == old(pending)
    {
      modalOpen := false;
    }

    /** Submitting the form, then closing it. An edit merges the submitted
        fields into every record with the edited id and clears the selection;
        a new record is prepended with the given id and timestamp. The form
        submits the edited record's own status, or the current tab for a new
        record. */
    method SubmitForm(data: PaperData, freshId: PaperId, now: int)
      requires modalOpen
      requires data.status == (if editing.Some? then editing.value.status else activeTab)
      modifies this
      ensures old(editing).Some? ==> papers == MergeEdit(old(papers), old(editing).value.id, data)
      ensures old(editing).None? ==> papers == [NewRecord(data, freshId, now)] + old(papers)
      ensures old(editing).None? ==> papers[0].status == activeTab
      ensures UniqueIds(old(papers)) && (old(editing).Some? || Find(old(papers), freshId).None?)
              ==> UniqueIds(papers)
      ensures editing == None && !modalOpen
      ensures activeTab == old(activeTab) && pending == old(pending)
    {
      if editing.Some? {
        if UniqueIds(papers) {
          MergeEditKeepsUniqueIds(papers, editing.value.id, data);
        }
        papers := MergeEdit(papers, editing.value.id, data);
        editing := None;
      } else {
        if UniqueIds(papers) && Find(papers, freshId).None? {
          PrependFreshKeepsUniqueIds(papers, NewRecord(data, freshId, now));
        }
        papers := [NewRecord(data, freshId, now)] + papers;
      }
      modalOpen := false;
    }

    /** A delete asks first: a missing id does nothing, an accepted record is
        asked about in the danger tone, any other in the warning tone. The
        records are left as they are until the dialog is confirmed. */
    method RequestDelete(id: PaperId)
      modifies this
      ensures Find(old(papers), id).None? ==> pending == old(pending)
      ensures Find(old(papers), id).Some? ==>
                pending == AwaitDelete(id, if Find(old(papers), id).value.status == Accepted then Danger else Warning)
      ensures papers == old(papers) && activeTab == old(activeTab)
      ensures modalOpen == old(modalOpen) && editing == old(editing)
    {
      var found := Find(papers, id);
      if found.None? {
        return;
      }
      var tone := if found.value.status == Accepted then Danger else Warning;
      pending := AwaitDelete(id, tone);
    }

    /** A move to Rejected (danger tone) or Submitted (info tone) waits for
        confirmation; any other move is applied at once and selects the tab
        of the new status. */
    method RequestStatusChange(id: PaperId, newStatus: PaperStatus)
      modifies this
      ensures newStatus == Rejected ==> pending == AwaitStatus(id, newStatus, Danger)
      ensures newStatus == Submitted ==> pending == AwaitStatus(id, newStatus, Info)
      ensures newStatus == Rejected || newStatus == Submitted ==>
                papers == old(papers) && activeTab == old(activeTab)
      ensures newStatus != Rejected && newStatus != Submitted ==>
                papers == UpdateStatus(old(papers), id, newStatus) && activeTab == newStatus
                && pending == old(pending)
      ensures UniqueIds(old(papers)) ==> UniqueIds(papers)
      ensures modalOpen == old(modalOpen) && editing == old(editing)
    {
      if newStatus == Rejected {
        pending := AwaitStatus(id, newStatus, Danger);
      } else if newStatus == Submitted {
        pending := AwaitStatus(id, newStatus, Info);
      } else {
        if UniqueIds(papers) {
          UpdateStatusKeepsUniqueIds(papers, id, newStatus);
        }
        papers := UpdateStatus(papers, id, newStatus);
        activeTab := newStatus;
      }
    }

    /** Confirming commits the held-back action on the current records and
        closes the dialog: a delete removes every record with the id, a
        status change rewrites them and selects the new status's tab. With
        no dialog open there is nothing to confirm. */
    method Confirm()
      modifies this
      ensures old(pending).Idle? ==> papers == old(papers) && activeTab == old(activeTab)
      ensures old(pending).AwaitDelete? ==>
                papers == RemoveId(old(papers), old(pending).id) && activeTab == old(activeTab)
      ensures old(pending).AwaitStatus? ==>
                papers == UpdateStatus(old(papers), old(pending).id, old(pending).newStatus)
                && activeTab == old(pending).newStatus
      ensures UniqueIds(old(papers)) ==> UniqueIds(papers)
      ensures pending == Idle
      ensures modalOpen == old(modalOpen) && editing == old(editing)
    {
      match pending {
        case Idle =>
        case AwaitDelete(id, _) =>
          if UniqueIds(papers) {
            RemoveIdKeepsUniqueIds(papers, id);
          }
          papers := RemoveId(papers, id);
        case AwaitStatus(id, newStatus, _) =>
          if UniqueIds(papers) {
            UpdateStatusKeepsUniqueIds(papers, id, newStatus);
          }
          papers := UpdateStatus(papers, id, newStatus);
          activeTab := newStatus;
      }
      pending := Idle;
    }

    /** Cancelling closes the dialog and drops the held-back action. */
    method Cancel()
      modifies this
      ensures pending == Idle
      ensures papers == old(papers) && activeTab == old(activeTab)
      ensures modalOpen == old(modalOpen) && editing == old(editing)
    {
      pending := Idle;
    }
  }
}
