/** The plain component of App.tsx: the same record store, tab and paper
    form, with a browser confirmation before deletes and status changes
    applied at once. */
module PlainApp {
  import opened Types
  import opened Records

  /** The question the browser's confirmation box asks before a delete. */
  datatype DeletePrompt = Irreversible | LosesPoints | Heartbreak

  class App {
    var papers: seq<PaperRecord>
    var activeTab: PaperStatus
    var modalOpen: bool
    var editing: Option<PaperRecord>

    /** Starts from the saved records on the Accepted tab, with the form closed. */
    constructor (saved: seq<PaperRecord>)
      ensures papers == saved && activeTab == Accepted
      ensures !modalOpen && editing == None
    {
      papers := saved;
      activeTab := Accepted;
      modalOpen := false;
      editing := None;
    }

    /** The records listed under the selected tab, in store order. */
    function FilteredPapers(): (shown: seq<PaperRecord>)
      reads this
      ensures shown == ByStatus(papers, activeTab)
      ensures forall p :: p in shown <==> p in papers && p.status == activeTab
      ensures |shown| <= |papers|
    {
      ByStatus(papers, activeTab)
    }

    /** Clicking a tab selects it. */
    method SelectTab(tab: PaperStatus)
      modifies this
      ensures activeTab == tab
      ensures papers == old(papers) && modalOpen == old(modalOpen) && editing == old(editing)
    {
      activeTab := tab;
    }

    /** The add buttons open an empty form. */
    method OpenNew()
      modifies this
      ensures modalOpen && editing == None
      ensures papers == old(papers) && activeTab == old(activeTab)
    {
      editing := None;
      modalOpen := true;
    }

    /** The edit button of a card opens the form on that record. */
    method StartEditing(p: PaperRecord)
      modifies this
      ensures modalOpen && editing == Some(p)
      ensures papers == old(papers) && activeTab == old(activeTab)
    {
      editing := Some(p);
      modalOpen := true;
    }

    /** Closing the form hides it and forgets the record being edited. */
    method CloseModal()
      modifies this
      ensures !modalOpen && editing == None
      ensures papers == old(papers) && activeTab == old(activeTab)
    {
      modalOpen := false;
      editing := None;
    }

    /** Submitting the form, then closing it. An edit merges the submitted
        fields into every record with the edited id; a new record is
        prepended with the given id and timestamp. The form submits the
        edited record's own status, or the current tab for a new record. */
    method SubmitForm(data: PaperData, freshId: PaperId, now: int)
      requires modalOpen
      requires data.status == (if editing.Some? then editing.value.status else activeTab)
      modifies this
      ensures old(editing).Some? ==> papers == MergeEdit(old(papers), old(editing).value.id, data)
      ensures old(editing).None? ==> papers == [NewRecord(data, freshId, now)] + old(papers)
      ensures old(editing).None? ==> papers[0].status == activeTab
      ensures UniqueIds(old(papers)) && (old(editing).Some? || Find(old(papers), freshId).None?)
              ==> UniqueIds(papers)
      ensures editing == None && !modalOpen
      ensures activeTab == old(activeTab)
    {
      if editing.Some? {
        if UniqueIds(papers) {
          MergeEditKeepsUniqueIds(papers, editing.value.id, data);
        }
        papers := MergeEdit(papers, editing.value.id, data);
        editing := None;
      } else {
        if UniqueIds(papers) && Find(papers, freshId).None? {
          PrependFreshKeepsUniqueIds(papers, NewRecord(data, freshId, now));
        }
        papers := [NewRecord(data, freshId, now)] + papers;
      }
      modalOpen := false;
      editing := None;
    }

    /** A delete of a known id asks first, warning about lost points for an
        accepted record and with a gentler question for a rejected one; the
        records with that id go only when the user agrees. A missing id asks
        nothing and changes nothing. */
    method DeletePaper(id: PaperId, userConfirms: bool) returns (asked: Option<DeletePrompt>)
      modifies this
      ensures Find(old(papers), id).None? ==> asked == None && papers == old(papers)
      ensures Find(old(papers), id).Some? ==>
                asked == Some(match Find(old(papers), id).value.status
                              case Accepted => LosesPoints
                              case Rejected => Heartbreak
                              case _ => Irreversible)
      ensures Find(old(papers), id).Some? && userConfirms ==> papers == RemoveId(old(papers), id)
      ensures !userConfirms ==> papers == old(papers)
      ensures UniqueIds(old(papers)) ==> UniqueIds(papers)
      ensures activeTab == old(activeTab) && modalOpen == old(modalOpen) && editing == old(editing)
    {
      var found := Find(papers, id);
      if found.None? {
        return None;
      }
      var prompt := Irreversible;
      if found.value.status == Accepted {
        prompt := LosesPoints;
      }
      if found.value.status == Rejected {
        prompt := Heartbreak;
      }
      asked := Some(prompt);
      if userConfirms {
        if UniqueIds(papers) {
          RemoveIdKeepsUniqueIds(papers, id);
        }
        papers := RemoveId(papers, id);
      }
    }

    /** A status change applies at once to every record with the id and
        selects the tab of the new status. */
    method UpdatePaperStatus(id: PaperId, newStatus: PaperStatus)
      modifies this
      ensures papers == UpdateStatus(old(papers), id, newStatus) && activeTab == newStatus
      ensures UniqueIds(old(papers)) ==> UniqueIds(papers)
      ensures modalOpen == old(modalOpen) && editing == old(editing)
    {
      if UniqueIds(papers) {
        UpdateStatusKeepsUniqueIds(papers, id, newStatus);
      }
      papers := UpdateStatus(papers, id, newStatus);
      activeTab := newStatus;
    }
  }
}
