/** One section of a device's history: its rows by descending id, below the snapshot. */
module DeviceHistory {
  import opened Common
  import opened Keyset
  import opened SnapshotPaging

  /** The section's own rows are those of the device, so snapshot and count are taken over what is shown. */
  function HistoryView<D>(ofDevice: Row<nat, D> -> bool): View<nat, D> {
    View((a: nat, b: nat) => a > b, (beforeId: nat, id: nat) => id < beforeId, (id: nat) => id, ofDevice, (r: Row<nat, D>) => true)
  }

  lemma HistoryViewIsSound<D>(ofDevice: Row<nat, D> -> bool)
    ensures Sound(HistoryView(ofDevice))
  {
    var view := HistoryView(ofDevice);
    assert forall x, y :: view.before(x, y) <==> x > y;
  }

  /** Following the cursors of a section reads the device's rows of the first request, and every page reports their number. */
  lemma HistoryPagesAreTheSnapshot<D(!new)>(tables: Tables<nat, D>, ofDevice: Row<nat, D> -> bool, limits: seq<nat>)
    requires Grows(HistoryView(ofDevice), tables) && Positive(limits)
    ensures ReadPages(HistoryView(ofDevice), tables, limits) == Take(Listing(HistoryView(ofDevice), tables(0)), Sum(limits))
    ensures Sum(limits) >= ReadPage(HistoryView(ofDevice), tables(0), None, 1).totalCount
            ==> |ReadPages(HistoryView(ofDevice), tables, limits)| == ReadPage(HistoryView(ofDevice), tables(0), None, 1).totalCount
  {
    var view := HistoryView(ofDevice);
    HistoryViewIsSound(ofDevice);
    GrowsIsSteady(view, tables);
    PagesAreTheSnapshot(view, tables, limits);
    PageOfListing(view, tables, 0, 0, 1);
  }

  /** A section lists the device's rows, each once, by descending id. */
  lemma SectionIsNewestFirst<D(!new)>(table: seq<Row<nat, D>>, ofDevice: Row<nat, D> -> bool, i: nat, j: nat)
    requires Unique(table) && i < j < |Listing(HistoryView(ofDevice), table)|
    ensures Listing(HistoryView(ofDevice), table)[i].pos > Listing(HistoryView(ofDevice), table)[j].pos
    ensures forall r :: r in Listing(HistoryView(ofDevice), table) <==> r in table && ofDevice(r)
  {
    var view := HistoryView(ofDevice);
    HistoryViewIsSound(ofDevice);
    SelectUnique(table, (r: Row<nat, D>) => Matches(view, r));
    SortSorted(Matching(view, table), view.before);
    assert view.before(Listing(view, table)[i].pos, Listing(view, table)[j].pos);
  }
}
