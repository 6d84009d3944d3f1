/**
 * The translation history page: the user's records listed newest first
 * with a checkbox each, a select-all checkbox, and deletion of one record or
 * of every selected record. Deletion asks for confirmation and then deletes
 * in the remote store; the store's answer is a parameter (`remoteOk`), as is
 * the user's answer to the confirmation (`confirmed`).
 */
module History {
  import opened Common

  const DeleteFailed: string := "삭제에 실패했습니다."
  const NothingSelected: string := "삭제할 항목을 선택해주세요."

  /** A stored record as the list needs it: its id and what the card shows. */
  datatype HistoryRecord = HistoryRecord(id: string, card: string)

  /** The ids of the records, in order. */
  function Ids(records: seq<HistoryRecord>): (r: seq<string>)
    ensures |r| == |records| && forall k :: 0 <= k < |records| ==> r[k] == records[k].id
  {
    if records == [] then [] else Ids(records[..|records| - 1]) + [records[|records| - 1].id]
  }

  /** `records.filter(record => !ids.has(record.id))`. */
  function Without(records: seq<HistoryRecord>, ids: set<string>): (r: seq<HistoryRecord>)
    ensures |r| <= |records|
  {
    if records == [] then []
    else
      Without(records[..|records| - 1], ids)
        + (if records[|records| - 1].id in ids then [] else [records[|records| - 1]])
  }

  /** Exactly the records whose id is not among `ids` remain. */
  lemma {:induction false} WithoutMembers(records: seq<HistoryRecord>, ids: set<string>)
    ensures forall r :: r in Without(records, ids) <==> r in records && r.id !in ids
  {
    if records != [] {
      WithoutMembers(records[..|records| - 1], ids);
      assert records == records[..|records| - 1] + [records[|records| - 1]];
    }
  }

  /** The remaining records keep their order: removing from two lists in turn is removing from the two joined. */
  lemma {:induction false} WithoutKeepsOrder(xs: seq<HistoryRecord>, ys: seq<HistoryRecord>, ids: set<string>)
    ensures Without(xs + ys, ids) == Without(xs, ids) + Without(ys, ids)
    decreases |ys|
  {
    if ys == [] {
      assert xs + ys == xs;
    } else {
      var init := ys[..|ys| - 1];
      assert (xs + ys)[..|xs + ys| - 1] == xs + init;
      WithoutKeepsOrder(xs, init, ids);
    }
  }

  /** Removing ids no record has changes nothing. */
  lemma {:induction false} WithoutAbsent(records: seq<HistoryRecord>, ids: set<string>)
    requires forall k :: 0 <= k < |records| ==> records[k].id !in ids
    ensures Without(records, ids) == records
  {
    if records != [] {
      WithoutAbsent(records[..|records| - 1], ids);
      assert records == records[..|records| - 1] + [records[|records| - 1]];
    }
  }

  /** `handleRecordSelect`: the id leaves the selection if it was in it, and joins it otherwise. */
  function Toggled(selected: set<string>, id: string): (r: set<string>)
    ensures id in r <==> id !in selected
    ensures forall x :: x != id ==> (x in r <==> x in selected)
  {
    if id in selected then selected - {id} else selected + {id}
  }

  /** Toggling the same id twice gives the selection back. */
  lemma ToggledTwice(selected: set<string>, id: string)
    ensures Toggled(Toggled(selected, id), id) == selected
  {
    var once := Toggled(selected, id);
    var twice := Toggled(once, id);
    assert forall x :: x in twice <==> x in selected;
  }

  /** The set of the ids of `records`. */
  function IdSet(records: seq<HistoryRecord>): (s: set<string>)
    ensures forall x :: x in s <==> exists k :: 0 <= k < |records| && records[k].id == x
  {
    set k | 0 <= k < |records| :: records[k].id
  }

  /** `handleSelectAll`: a selection as large as the list is cleared, any other becomes every id. */
  function SelectAll(selected: set<string>, records: seq<HistoryRecord>): (r: set<string>)
    ensures |selected| == |records| ==> r == {}
    ensures |selected| != |records| ==> r == IdSet(records)
  {
    if |selected| == |records| then {} else IdSet(records)
  }

  /** The select-all checkbox: as many selected as there are records, and some records. */
  predicate AllChecked(selected: set<string>, records: seq<HistoryRecord>) {
    |selected| == |records| && |records| > 0
  }

  /** Distinct ids make as many ids as records. */
  lemma {:induction false} IdSetSize(records: seq<HistoryRecord>)
    requires Distinct(Ids(records))
    ensures |IdSet(records)| == |records|
  {
    if records != [] {
      var init := records[..|records| - 1];
      DistinctInit(records);
      IdSetSize(init);
      IdSetSnoc(records);
      LastIdFresh(records);
    }
  }

  lemma {:induction false} DistinctInit(records: seq<HistoryRecord>)
    requires Distinct(Ids(records)) && records != []
    ensures Distinct(Ids(records[..|records| - 1]))
  {
    var init := records[..|records| - 1];
    assert forall k :: 0 <= k < |init| ==> Ids(init)[k] == Ids(records)[k];
  }

  lemma {:induction false} IdSetSnoc(records: seq<HistoryRecord>)
    requires records != []
    ensures IdSet(records) == IdSet(records[..|records| - 1]) + {records[|records| - 1].id}
  {
    var init := records[..|records| - 1];
    assert forall k :: 0 <= k < |init| ==> init[k] == records[k];
  }

  lemma {:induction false} LastIdFresh(records: seq<HistoryRecord>)
    requires Distinct(Ids(records)) && records != []
    ensures records[|records| - 1].id !in IdSet(records[..|records| - 1])
  {
    var init := records[..|records| - 1];
    forall k | 0 <= k < |init|
      ensures init[k].id != records[|records| - 1].id
    {
      assert Ids(records)[k] != Ids(records)[|records| - 1];
    }
  }

  /**
   * With distinct ids, select-all checks the box whenever it was unchecked
   * on a non-empty list, and unchecks it whenever it was checked: the
   * button flips the box.
   */
  lemma SelectAllFlips(selected: set<string>, records: seq<HistoryRecord>)
    requires Distinct(Ids(records)) && |records| > 0
    ensures AllChecked(SelectAll(selected, records), records) <==> !AllChecked(selected, records)
  {
    IdSetSize(records);
    SelectAllFlipsSized(selected, records);
  }

  lemma SelectAllFlipsSized(selected: set<string>, records: seq<HistoryRecord>)
    requires |IdSet(records)| == |records| > 0
    ensures AllChecked(SelectAll(selected, records), records) <==> !AllChecked(selected, records)
  {
  }

  /** `번역 기록 #n` down to `#1`: the heading number of the card at each position. */
  function Headings(n: nat): (h: seq<nat>)
    ensures |h| == n
    ensures n > 0 ==> h[0] == n && h[n - 1] == 1
    ensures forall k :: 0 <= k < n - 1 ==> h[k] == h[k + 1] + 1
  {
    seq(n, index requires 0 <= index < n => n - index)
  }

  /** The page's state. */
  class HistoryView {
    var records: seq<HistoryRecord>
    var selectedRecords: set<string>
    var deleting: bool
    var error: Option<string>

    constructor (records: seq<HistoryRecord>)
      ensures this.records == records && selectedRecords == {} && !deleting && error == None
    {
      this.records := records;
      selectedRecords := {};
      deleting := false;
      error := None;
    }

    /** Clicking the checkbox of the record `id`. */
    method RecordSelect(id: string)
      modifies this`selectedRecords
      ensures selectedRecords == Toggled(old(selectedRecords), id)
    {
      var newSelected := selectedRecords;
      if id in newSelected {
        newSelected := newSelected - {id};
      } else {
        newSelected := newSelected + {id};
      }
      selectedRecords := newSelected;
    }

    /** Clicking the select-all checkbox. */
    method SelectAllRecords()
      modifies this`selectedRecords
      ensures selectedRecords == SelectAll(old(selectedRecords), records)
    {
      if |selectedRecords| == |records| {
        selectedRecords := {};
      } else {
        selectedRecords := IdSet(records);
      }
    }

    /**
     * `handleDeleteRecord(id)`: declined, nothing changes; deleted remotely,
     * the record leaves the list and the selection; failed remotely, only
     * the error is set. Once the deletion has started, `deleting` is off
     * afterwards whatever the store answered.
     */
    method DeleteRecord(id: string, confirmed: bool, remoteOk: bool)
      modifies this
      ensures !confirmed ==> unchanged(this)
      ensures confirmed ==> !deleting
      ensures confirmed && remoteOk ==>
        && records == Without(old(records), {id})
        && selectedRecords == old(selectedRecords) - {id}
        && error == old(error)
      ensures confirmed && !remoteOk ==>
        records == old(records) && selectedRecords == old(selectedRecords) && error == Some(DeleteFailed)
    {
      if !confirmed {
        return;
      }
      deleting := true;
      if remoteOk {
        records := Without(records, {id});
        selectedRecords := selectedRecords - {id};
      } else {
        error := Some(DeleteFailed);
      }
      deleting := false;
    }

    /**
     * `handleDeleteSelected`: with nothing selected only the alert is shown;
     * declined, nothing changes; deleted remotely, every selected record
     * leaves the list and the selection empties; failed remotely, only the
     * error is set. Once the deletion has started, `deleting` is off
     * afterwards whatever the store answered.
     */
    method DeleteSelected(confirmed: bool, remoteOk: bool) returns (alert: Option<string>)
      modifies this
      ensures alert == (if old(selectedRecords) == {} then Some(NothingSelected) else None)
      ensures old(selectedRecords) == {} || !confirmed ==> unchanged(this)
      ensures old(selectedRecords) != {} && confirmed ==> !deleting
      ensures old(selectedRecords) != {} && confirmed && remoteOk ==>
        records == Without(old(records), old(selectedRecords)) && selectedRecords == {} && error == old(error)
      ensures old(selectedRecords) != {} && confirmed && !remoteOk ==>
        records == old(records) && selectedRecords == old(selectedRecords) && error == Some(DeleteFailed)
    {
      alert := None;
      if |selectedRecords| == 0 {
        alert := Some(NothingSelected);
        return;
      }
      if !confirmed {
        return;
      }
      deleting := true;
      if remoteOk {
        records := Without(records, selectedRecords);
        selectedRecords := {};
      } else {
        error := Some(DeleteFailed);
      }
      deleting := false;
    }

    /** The select-all checkbox is checked. */
    predicate SelectAllChecked()
      reads this
    {
      AllChecked(selectedRecords, records)
    }

    /** "선택 삭제" is disabled with nothing selected or while deleting. */
    predicate DeleteSelectedEnabled()
      reads this
    {
      |selectedRecords| != 0 && !deleting
    }
  }

  /** After a successful bulk delete no remaining record is selected, and none of them was. */
  lemma BulkDeleteLeavesUnselected(records: seq<HistoryRecord>, selected: set<string>)
    ensures forall r :: r in Without(records, selected) ==> r.id !in selected && r in records
  {
    WithoutMembers(records, selected);
  }
}
