/** `load_data_from_drive`: the loop that assigns each downloaded file to the
    header slot or the items slot by its exact name. Authentication, the folder
    query and the download are outside the model; their outcome is the input. */
module Loader {
  import opened Basics
  import opened Tables

  const HeaderFileName := "202401_NFs_Cabecalho.csv"
  const ItemsFileName := "202401_NFs_Itens.csv"

  /** One file of the folder listing: its name, and its UTF-8 text when the
      download and the decoding succeeded (None when either raised). */
  datatype RemoteFile = RemoteFile(name: string, content: Option<string>)

  /** The two slots while the loop runs, or Aborted once a parse raised: that
      exception escapes the loop and the outer handler returns (None, None). */
  datatype Slots = Slots(header: Option<Table>, items: Option<Table>) | Aborted

  /** One iteration: skip a failed download, otherwise parse a file of either
      expected name into its slot; files of other names are ignored. */
  function Step(slots: Slots, f: RemoteFile, parse: string -> Option<Table>): Slots
  {
    match slots
    case Aborted => Aborted
    case Slots(header, items) =>
      if f.content.None? then slots
      else if f.name == HeaderFileName then
        (match parse(f.content.value) case None => Aborted case Some(t) => Slots(Some(t), items))
      else if f.name == ItemsFileName then
        (match parse(f.content.value) case None => Aborted case Some(t) => Slots(header, Some(t)))
      else slots
  }

  /** The slots after the loop has processed the given files in order. */
  function Dispatch(files: seq<RemoteFile>, parse: string -> Option<Table>): Slots
  {
    if |files| == 0 then Slots(None, None)
    else Step(Dispatch(files[..|files| - 1], parse), files[|files| - 1], parse)
  }

  /** What loading returns: both tables, or None for "(None, None)". A listing of
      None stands for a failed authentication or a failed folder query. */
  function Load(listing: Option<seq<RemoteFile>>, parse: string -> Option<Table>): Option<(Table, Table)>
  {
    match listing
    case None => None
    case Some(files) =>
      if |files| == 0 then None
      else
        match Dispatch(files, parse)
        case Slots(Some(header), Some(items)) => Some((header, items))
        case _ => None
  }

  lemma {:induction false} AbortedSticks(files: seq<RemoteFile>, parse: string -> Option<Table>, i: nat)
    requires i <= |files| && Dispatch(files[..i], parse) == Aborted
    ensures Dispatch(files, parse) == Aborted
    decreases |files| - i
  {
    if i < |files| {
      assert files[..i + 1][..i] == files[..i];
      AbortedSticks(files, parse, i + 1);
    } else {
      assert files[..i] == files;
    }
  }

  method LoadTables(listing: Option<seq<RemoteFile>>, parse: string -> Option<Table>)
    returns (tables: Option<(Table, Table)>)
    ensures tables == Load(listing, parse)
    ensures listing.None? || listing.value == [] ==> tables.None?
  {
    if listing.None? {
      return None;
    }
    var files := listing.value;
    if |files| == 0 {
      return None;
    }
    var header: Option<Table> := None;
    var items: Option<Table> := None;
    for i := 0 to |files|
      invariant Dispatch(files[..i], parse) == Slots(header, items)
    {
      assert files[..i + 1][..i] == files[..i];
      var f := files[i];
      if f.content.None? {
        continue;
      }
      var content := f.content.value;
      if f.name == HeaderFileName {
        var parsed := parse(content);
        if parsed.None? {
          AbortedSticks(files, parse, i + 1);
          return None;
        }
        header := parsed;
      } else if f.name == ItemsFileName {
        var parsed := parse(content);
        if parsed.None? {
          AbortedSticks(files, parse, i + 1);
          return None;
        }
        items := parsed;
      }
    }
    assert files[..|files|] == files;
    if header.None? || items.None? {
      return None;
    }
    return Some((header.value, items.value));
  }

  /** File k reached its slot: it was downloaded and carries the slot's name. */
  predicate Delivers(files: seq<RemoteFile>, k: int, name: string)
  {
    0 <= k < |files| && files[k].content.Some? && files[k].name == name
  }

  /** Some downloaded file of an expected name failed to parse. */
  ghost predicate SomeParseFails(files: seq<RemoteFile>, parse: string -> Option<Table>)
  {
    exists k :: (Delivers(files, k, HeaderFileName) || Delivers(files, k, ItemsFileName))
                && parse(files[k].content.value).None?
  }

  /** A slot holds the table parsed from the last downloaded file of its name. */
  ghost predicate FromLast(files: seq<RemoteFile>, parse: string -> Option<Table>, name: string, slot: Option<Table>)
  {
    match slot
    case None => forall k :: 0 <= k < |files| ==> !Delivers(files, k, name)
    case Some(t) =>
      exists k :: Delivers(files, k, name) && parse(files[k].content.value) == Some(t)
                  && forall j :: k < j < |files| ==> !Delivers(files, j, name)
  }

  /** The loop aborts exactly when a downloaded header or items file fails to
      parse; otherwise each slot holds the last downloaded file of its name. */
  lemma {:induction false} DispatchMeaning(files: seq<RemoteFile>, parse: string -> Option<Table>)
    ensures Dispatch(files, parse).Aborted? <==> SomeParseFails(files, parse)
    ensures Dispatch(files, parse).Slots? ==>
              FromLast(files, parse, HeaderFileName, Dispatch(files, parse).header)
              && FromLast(files, parse, ItemsFileName, Dispatch(files, parse).items)
  {
    if |files| > 0 {
      var init, last := files[..|files| - 1], files[|files| - 1];
      var n := |files| - 1;
      DispatchMeaning(init, parse);
      assert forall k :: 0 <= k < n ==> files[k] == init[k];
      assert forall k, name :: 0 <= k < n ==> (Delivers(files, k, name) <==> Delivers(init, k, name));
      var before := Dispatch(init, parse);
      if SomeParseFails(init, parse) {
        var k :| (Delivers(init, k, HeaderFileName) || Delivers(init, k, ItemsFileName))
                 && parse(init[k].content.value).None?;
        assert files[k] == init[k];
      }
      if SomeParseFails(files, parse) && !SomeParseFails(init, parse) {
        var k :| (Delivers(files, k, HeaderFileName) || Delivers(files, k, ItemsFileName))
                 && parse(files[k].content.value).None?;
      }
      if before.Slots? && Dispatch(files, parse).Slots? {
        SlotsAfterStep(files, parse, HeaderFileName, before.header, Dispatch(files, parse).header);
        SlotsAfterStep(files, parse, ItemsFileName, before.items, Dispatch(files, parse).items);
      }
    }
  }

  /** The last step keeps FromLast for one slot. */
  lemma SlotsAfterStep(files: seq<RemoteFile>, parse: string -> Option<Table>, name: string,
                       before: Option<Table>, after: Option<Table>)
    requires |files| > 0
    requires FromLast(files[..|files| - 1], parse, name, before)
    requires var last := files[|files| - 1];
             if last.content.Some? && last.name == name then after == parse(last.content.value) && after.Some?
             else after == before
    ensures FromLast(files, parse, name, after)
  {
    var init, n := files[..|files| - 1], |files| - 1;
    assert forall k :: 0 <= k < n ==> files[k] == init[k];
    assert forall k :: 0 <= k < n ==> (Delivers(files, k, name) <==> Delivers(init, k, name));
    if Delivers(files, n, name) {
      assert Delivers(files, n, name) && parse(files[n].content.value) == after;
    } else {
      match before
      case None =>
        assert forall k :: 0 <= k < n ==> !Delivers(init, k, name);
      case Some(t) =>
        var k :| Delivers(init, k, name) && parse(init[k].content.value) == Some(t)
                 && forall j :: k < j < |init| ==> !Delivers(init, j, name);
        assert Delivers(files, k, name) && files[k] == init[k];
        assert forall j :: k < j < |files| ==> !Delivers(files, j, name);
    }
  }

  /** Loading succeeds exactly when the listing is non-empty, a file of each
      expected name was downloaded, and no downloaded file of either name failed
      to parse; each table then comes from the last downloaded file of its name. */
  lemma LoadMeaning(files: seq<RemoteFile>, parse: string -> Option<Table>)
    ensures Load(Some(files), parse).Some? <==>
              && |files| > 0
              && !SomeParseFails(files, parse)
              && (exists k :: Delivers(files, k, HeaderFileName))
              && (exists k :: Delivers(files, k, ItemsFileName))
    ensures Load(Some(files), parse).Some? ==>
              && FromLast(files, parse, HeaderFileName, Some(Load(Some(files), parse).value.0))
              && FromLast(files, parse, ItemsFileName, Some(Load(Some(files), parse).value.1))
  {
    DispatchMeaning(files, parse);
  }

  /** A failed download is skipped: the loop carries on as if the file were not
      listed. */
  lemma {:induction false} DispatchSkipsFailedDownload(a: seq<RemoteFile>, f: RemoteFile, b: seq<RemoteFile>,
                                                       parse: string -> Option<Table>)
    requires f.content.None?
    ensures Dispatch(a + [f] + b, parse) == Dispatch(a + b, parse)
    decreases |b|
  {
    if |b| == 0 {
      assert (a + [f] + b)[..|a|] == a && a + b == a;
    } else {
      var b' := b[..|b| - 1];
      DispatchSkipsFailedDownload(a, f, b', parse);
      assert (a + [f] + b)[..|a + [f] + b| - 1] == a + [f] + b';
      assert (a + b)[..|a + b| - 1] == a + b';
    }
  }

  /** Dropping a failed download from a listing does not change the outcome. */
  lemma FailedDownloadIsSkipped(a: seq<RemoteFile>, f: RemoteFile, b: seq<RemoteFile>, parse: string -> Option<Table>)
    requires f.content.None?
    ensures Load(Some(a + [f] + b), parse) == Load(Some(a + b), parse)
  {
    DispatchSkipsFailedDownload(a, f, b, parse);
  }
}
