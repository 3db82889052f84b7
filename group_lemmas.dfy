/** How the specification of one date group grows line by line: the facts
    the imperative parser's loop invariant rests on. */
module GroupLemmas {
  import opened JsText
  import opened NoteTypes
  import opened NoteSpec

  /** More lines hold at least as many items; an item line adds one. */
  lemma {:induction false} CountItemsMonotone(ks: seq<LineKind>, p: nat, n: nat)
    requires p <= n <= |ks|
    ensures CountItems(ks, p) <= CountItems(ks, n)
    ensures p < n && IsItem(ks[p]) ==> CountItems(ks, p) < CountItems(ks, n)
    decreases n - p
  {
    if p < n {
      CountItemsMonotone(ks, p, n - 1);
    }
  }

  /** Item line p's element sits at index CountItems(ks, p) of Items. */
  lemma {:induction false} ItemsIndex(ks: seq<LineKind>, h: nat, n: nat, p: nat)
    requires h <= |ks| && p < n <= |ks| && IsItem(ks[p])
    ensures CountItems(ks, p) < |Items(ks, h, n)|
    ensures Items(ks, h, n)[CountItems(ks, p)] == ItemAt(ks, p, h)
  {
    if p < n - 1 {
      CountItemsMonotone(ks, p, n - 1);
      ItemsIndex(ks, h, n - 1, p);
    }
  }

  /** A line owns no metadata among the lines up to and including itself. */
  lemma {:induction false} MetadataEmptyBefore(ks: seq<LineKind>, p: int, h: nat)
    requires h <= |ks| && h <= p + 1
    ensures Metadata(ks, p, h) == []
  {
    if h > 0 {
      MetadataEmptyBefore(ks, p, h - 1);
    }
  }

  /** An item whose owner did not change keeps its element. */
  lemma ItemAtUnchanged(ks: seq<LineKind>, q: nat, h: nat)
    requires q < |ks| && h < |ks| && IsItem(ks[q])
    requires !(ks[h].MetadataLine? && Owner(ks, h) == q)
    ensures ItemAt(ks, q, h + 1) == ItemAt(ks, q, h)
  {
    assert Metadata(ks, q, h + 1) == Metadata(ks, q, h);
  }

  /** Reading line h leaves the elements of the item lines before n alone
      unless line h is a metadata line owned by one of them. */
  lemma {:induction false} ItemsGrowKeep(ks: seq<LineKind>, h: nat, n: nat)
    requires h < |ks| && n <= h
    requires !(ks[h].MetadataLine? && 0 <= Owner(ks, h) < n)
    ensures Items(ks, h + 1, n) == Items(ks, h, n)
  {
    if n > 0 {
      ItemsGrowKeep(ks, h, n - 1);
      if IsItem(ks[n - 1]) {
        ItemAtUnchanged(ks, n - 1, h);
      }
    }
  }

  lemma UpdateThenAppend<T>(a: seq<T>, c: nat, v: T, b: seq<T>)
    requires c < |a|
    ensures a[c := v] + b == (a + b)[c := v]
  {
  }

  /** Reading a metadata line h changes exactly the element of its owner. */
  lemma {:induction false} ItemsGrowOwner(ks: seq<LineKind>, h: nat, n: nat)
    requires h < |ks| && n <= h
    requires ks[h].MetadataLine? && 0 <= Owner(ks, h) < n
    ensures CountItems(ks, Owner(ks, h)) < |Items(ks, h, n)|
    ensures Items(ks, h + 1, n) == Items(ks, h, n)[CountItems(ks, Owner(ks, h)) := ItemAt(ks, Owner(ks, h), h + 1)]
  {
    var o := Owner(ks, h);
    var q := n - 1;
    CountItemsMonotone(ks, o, n);
    if o == q {
      ItemsGrowKeep(ks, h, q);
    } else {
      ItemsGrowOwner(ks, h, q);
      var tail := if IsItem(ks[q]) then [ItemAt(ks, q, h)] else [];
      if IsItem(ks[q]) {
        ItemAtUnchanged(ks, q, h);
      }
      UpdateThenAppend(Items(ks, h, q), CountItems(ks, o), ItemAt(ks, o, h + 1), tail);
    }
  }

  /** The finish flag after one more metadata line. */
  lemma FinishedAppend(meta: seq<string>, t: string)
    ensures Finished(meta + [t]) == (Finished(meta) || StartsWith(t, FinishMarker))
  {
    var m' := meta + [t];
    if Finished(meta) {
      var k :| 0 <= k < |meta| && StartsWith(meta[k], FinishMarker);
      assert m'[k] == meta[k];
    }
    if StartsWith(t, FinishMarker) {
      assert m'[|meta|] == t;
    }
    if Finished(m') {
      var k :| 0 <= k < |m'| && StartsWith(m'[k], FinishMarker);
      if k < |meta| {
        assert m'[k] == meta[k];
      }
    }
  }

  /** Attaching one more metadata line: it is appended, and the finish flag
      is raised when it starts with the marker and never lowered. */
  lemma AttachAppend(info: ProblemInfo, meta: seq<string>, t: string)
    ensures Attach(info, meta + [t]) ==
            Attach(info, meta).(metadata := Attach(info, meta).metadata + [t],
                                isFinishMarathon := Attach(info, meta).isFinishMarathon || StartsWith(t, FinishMarker))
  {
    FinishedAppend(meta, t);
  }

  /** Reading an item line appends its element: the free text, or the new
      ProblemInfo with nothing attached yet. */
  lemma GroupStepItem(ks: seq<LineKind>, j: nat)
    requires j < |ks| && IsItem(ks[j])
    ensures Items(ks, j + 1, j + 1) == Items(ks, j, j) + [ItemAt(ks, j, j + 1)]
    ensures ks[j].TextLine? ==> ItemAt(ks, j, j + 1) == Str(ks[j].text)
    ensures ks[j].ProblemLine? ==> ItemAt(ks, j, j + 1) == Info(ks[j].info)
  {
    ItemsGrowKeep(ks, j, j);
    assert Items(ks, j + 1, j + 1) == Items(ks, j + 1, j) + [ItemAt(ks, j, j + 1)];
    MetadataEmptyBefore(ks, j, j + 1);
    if ks[j].ProblemLine? {
      var info := ks[j].info;
      assert info.metadata + [] == info.metadata;
      assert !Finished([]);
    }
  }

  /** A problem line moves the cursor onto its own element; every other line
      leaves the cursor where it was. */
  lemma CursorStep(ks: seq<LineKind>, j: nat)
    requires j < |ks|
    ensures ks[j].ProblemLine? ==> Cursor(ks, j + 1) == 1 + CountItems(ks, j)
    ensures !ks[j].ProblemLine? ==> Cursor(ks, j + 1) == Cursor(ks, j)
  {
  }

  /** Reading a metadata line updates the entry under the cursor, if any. */
  lemma GroupStepMetadata(ks: seq<LineKind>, j: nat)
    requires j < |ks| && ks[j].MetadataLine?
    ensures Cursor(ks, j + 1) == Cursor(ks, j)
    ensures Cursor(ks, j) < 0 ==> Items(ks, j + 1, j + 1) == Items(ks, j, j)
    ensures Cursor(ks, j) >= 0 ==>
              var c := Cursor(ks, j) - 1;
              && 0 <= c < |Items(ks, j, j)|
              && Items(ks, j, j)[c].Info?
              && var info := Items(ks, j, j)[c].info;
              Items(ks, j + 1, j + 1) == Items(ks, j, j)[c := Info(info.(
                metadata := info.metadata + [ks[j].text],
                isFinishMarathon := info.isFinishMarathon || StartsWith(ks[j].text, FinishMarker)))]
  {
    var o := Owner(ks, j);
    if o < 0 {
      ItemsGrowKeep(ks, j, j);
    } else {
      ItemsGrowOwner(ks, j, j);
      ItemsIndex(ks, j, j, o);
      var before := Metadata(ks, o, j);
      assert Metadata(ks, o, j + 1) == before + [ks[j].text];
      AttachAppend(ks[o].info, before, ks[j].text);
    }
  }

  /** Any other line changes nothing. */
  lemma GroupStepOther(ks: seq<LineKind>, j: nat)
    requires j < |ks| && ks[j].OtherLine?
    ensures Items(ks, j + 1, j + 1) == Items(ks, j, j) && Cursor(ks, j + 1) == Cursor(ks, j)
  {
    ItemsGrowKeep(ks, j, j);
  }

  /** The declarative group is what the line loop builds: one ReadKind step
      takes the tuple and cursor for lines ks[..j] to those for ks[..j + 1]. */
  lemma GroupStep(ks: seq<LineKind>, j: nat, date: string)
    requires j < |ks|
    ensures ReadKind([Str(date)] + Items(ks, j, j), Cursor(ks, j), ks[j])
            == ([Str(date)] + Items(ks, j + 1, j + 1), Cursor(ks, j + 1))
  {
    CursorStep(ks, j);
    var tuple: ProblemItem := [Str(date)] + Items(ks, j, j);
    match ks[j]
    case TextLine(t) =>
      GroupStepItem(ks, j);
      assert tuple + [Str(t)] == [Str(date)] + (Items(ks, j, j) + [Str(t)]);
    case ProblemLine(info) =>
      GroupStepItem(ks, j);
      assert tuple + [Info(info)] == [Str(date)] + (Items(ks, j, j) + [Info(info)]);
    case MetadataLine(t) =>
      GroupStepMetadata(ks, j);
      var c := Cursor(ks, j);
      if c >= 0 {
        assert tuple[c] == Items(ks, j, j)[c - 1];
        var v := Info(AddMetadata(tuple[c].info, t));
        assert tuple[c := v] == [Str(date)] + Items(ks, j, j)[c - 1 := v];
      }
    case OtherLine =>
      GroupStepOther(ks, j);
  }
}
