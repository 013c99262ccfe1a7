/** The status checkboxes: toggling a status in a filter list, the sorted
    order of the options (sorted in place on the caller's array), the
    checked state and the label of each option. */
module StatusFilter {
  import opened Seqs
  import opened Ascii

  /** `filter.filter((s) => s !== status)`: every occurrence of `status`
      removed, the other entries kept in order. */
  function Without(filter: seq<string>, status: string): (r: seq<string>)
    ensures status !in r
    ensures IsSubsequence(r, filter)
    ensures forall s :: s != status ==> multiset(r)[s] == multiset(filter)[s]
  {
    if filter == [] then []
    else
      var rest := Without(filter[1..], status);
      assert filter == [filter[0]] + filter[1..];
      if filter[0] == status then
        SubsequenceOfPrefix(rest, filter[1..], filter[0]);
        rest
      else
        assert ([filter[0]] + rest)[1..] == rest;
        [filter[0]] + rest
  }

  lemma {:induction false} WithoutAbsent(filter: seq<string>, status: string)
    requires status !in filter
    ensures Without(filter, status) == filter
  {
    if filter != [] {
      WithoutAbsent(filter[1..], status);
      assert filter == [filter[0]] + filter[1..];
    }
  }

  lemma {:induction false} WithoutAppended(filter: seq<string>, status: string)
    ensures Without(filter + [status], status) == Without(filter, status)
  {
    if filter == [] {
      assert [status][1..] == [];
    } else {
      assert (filter + [status])[1..] == filter[1..] + [status];
      WithoutAppended(filter[1..], status);
    }
  }

  /** `handleCheckboxChange(status)`: a present status is removed (every
      occurrence, the rest in order), an absent one is appended at the end.
      Afterwards `status` is checked exactly when it was not before, and
      every other status keeps its checked state. */
  function Toggle(filter: seq<string>, status: string): (r: seq<string>)
    ensures status in r <==> status !in filter
    ensures forall s :: s != status ==> (s in r <==> s in filter)
    ensures status !in filter ==> r == filter + [status]
    ensures status in filter ==>
              && IsSubsequence(r, filter)
              && (forall s :: s != status ==> multiset(r)[s] == multiset(filter)[s])
  {
    if status in filter then
      var r := Without(filter, status);
      assert forall s :: s in r <==> s in multiset(r);
      assert forall s :: s in filter <==> s in multiset(filter);
      r
    else filter + [status]
  }

  /** Checking an unchecked status and unchecking it again restores the
      filter exactly. */
  lemma ToggleTwiceRestores(filter: seq<string>, status: string)
    requires status !in filter
    ensures Toggle(Toggle(filter, status), status) == filter
  {
    WithoutAppended(filter, status);
    WithoutAbsent(filter, status);
  }

  /** `status.charAt(0) + status.slice(1).toLowerCase()`. */
  function Label(status: string): (r: string)
    ensures |r| == |status|
    ensures |status| > 0 ==> r[0] == status[0]
    ensures forall i :: 1 <= i < |status| ==> r[i] == LowerChar(status[i])
  {
    if status == "" then "" else [status[0]] + ToLower(status[1..])
  }

  /** The label of the approved status reads "Approved". */
  lemma LabelOfApproved()
    ensures Label("APPROVED") == "Approved"
  {
  }

  /** One rendered option. */
  datatype Checkbox = Checkbox(status: string, checked: bool, text: string)

  /** `allStatus.sort()`: an in-place insertion sort in code-unit order. */
  method SortStatuses(a: array<string>)
    modifies a
    ensures SortedLex(a[..])
    ensures multiset(a[..]) == old(multiset(a[..]))
  {
    var i := 0;
    while i < a.Length
      invariant 0 <= i <= a.Length
      invariant forall p, q :: 0 <= p < q < i ==> LexLe(a[p], a[q])
      invariant multiset(a[..]) == old(multiset(a[..]))
    {
      InsertIntoSorted(a, i);
      i := i + 1;
    }
    assert a[..] == a[..a.Length];
  }

  /** One insertion step: `a[i]` moves left past every entry ordered after
      it, so the first i + 1 entries end up in order. */
  method InsertIntoSorted(a: array<string>, i: nat)
    requires i < a.Length
    requires forall p, q :: 0 <= p < q < i ==> LexLe(a[p], a[q])
    modifies a
    ensures forall p, q :: 0 <= p < q <= i ==> LexLe(a[p], a[q])
    ensures multiset(a[..]) == old(multiset(a[..]))
  {
    var j := i;
    // a[j] is the element being inserted; all other pairs in a[..i+1] are in order
    while j > 0 && !LexLe(a[j - 1], a[j])
      invariant 0 <= j <= i
      invariant forall p, q :: 0 <= p < q <= i && p != j && q != j ==> LexLe(a[p], a[q])
      invariant forall q :: j < q <= i ==> LexLe(a[j], a[q])
      invariant multiset(a[..]) == old(multiset(a[..]))
    {
      LexLeTotal(a[j - 1], a[j]);
      a[j - 1], a[j] := a[j], a[j - 1];
      j := j - 1;
    }
    forall p | 0 <= p < j
      ensures LexLe(a[p], a[j])
    {
      if p < j - 1 {
        LexLeTransitive(a[p], a[j - 1], a[j]);
      }
    }
  }

  /** The rendered options: `allStatus` is first sorted in place (the
      caller's array changes), then every status gets a checkbox that is
      checked exactly when the status is in the filter, with its label. */
  method Render(allStatus: array<string>, statusFilter: seq<string>) returns (boxes: seq<Checkbox>)
    modifies allStatus
    ensures SortedLex(allStatus[..])
    ensures multiset(allStatus[..]) == old(multiset(allStatus[..]))
    ensures |boxes| == allStatus.Length
    ensures forall i :: 0 <= i < |boxes| ==>
              boxes[i] == Checkbox(allStatus[i], allStatus[i] in statusFilter, Label(allStatus[i]))
  {
    SortStatuses(allStatus);
    var sorted := allStatus[..];
    boxes := seq(|sorted|, i requires 0 <= i < |sorted| =>
      Checkbox(sorted[i], sorted[i] in statusFilter, Label(sorted[i])));
  }
}
