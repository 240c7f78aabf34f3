/** The history page of the browser front end: its state, the list update
    after a record is deleted, the default location chosen when the list of
    locations arrives, and the name of a downloaded export. */
module History {

  /** One stored weather observation as listed on the page. */
  datatype HistoryRecord = HistoryRecord(
    id: int,
    dateTime: string,
    temperature: real,
    humidity: real,
    pressure: real,
    description: string,
    windSpeed: real)

  /** One stored location offered in the location picker. */
  datatype LocationEntry = LocationEntry(id: int, name: string, country: string)

  /** The picker's value: initially the empty string, later a location id. */
  datatype Selection = Unselected | Selected(id: int)

  /** The page's state variables that the modelled handlers touch. */
  datatype PageState = PageState(
    locations: seq<LocationEntry>,
    selected: Selection,
    records: seq<HistoryRecord>,
    exportFormat: string)

  const DefaultExportFormat := "json"

  /** The state the page starts in. */
  function InitialState(): (st: PageState)
    ensures st.locations == [] && st.records == []
    ensures st.selected == Unselected
    ensures st.exportFormat == DefaultExportFormat
  {
    PageState([], Unselected, [], "json")
  }

  /** `records.filter(record => record.id !== recordId)`. */
  function DeleteRecord(records: seq<HistoryRecord>, recordId: int): (r: seq<HistoryRecord>)
    ensures |r| <= |records|
    ensures forall i :: 0 <= i < |r| ==> r[i].id != recordId
    ensures forall x :: x in r ==> x in records
    ensures forall x :: x in records && x.id != recordId ==> x in r
    decreases |records|
  {
    if records == [] then []
    else
      var rest := DeleteRecord(records[1..], recordId);
      if records[0].id != recordId then [records[0]] + rest else rest
  }

  /** Deleting from a concatenation deletes from each part: the kept
      records stay in their original relative order. */
  lemma {:induction false} DeleteDistributes(a: seq<HistoryRecord>, b: seq<HistoryRecord>, recordId: int)
    ensures DeleteRecord(a + b, recordId) == DeleteRecord(a, recordId) + DeleteRecord(b, recordId)
    decreases |a|
  {
    if a == [] {
      assert a + b == b;
    } else {
      assert (a + b)[1..] == a[1..] + b;
      DeleteDistributes(a[1..], b, recordId);
    }
  }

  /** `sub` is `s` with some elements removed, the rest in the same order. */
  predicate IsSubsequence<T(==)>(sub: seq<T>, s: seq<T>)
    decreases |s|
  {
    if sub == [] then true
    else if s == [] then false
    else if sub[0] == s[0] then IsSubsequence(sub[1..], s[1..])
    else IsSubsequence(sub, s[1..])
  }

  /** The records left after a delete are a subsequence of those before. */
  lemma {:induction false} DeleteIsSubsequence(records: seq<HistoryRecord>, recordId: int)
    ensures IsSubsequence(DeleteRecord(records, recordId), records)
    decreases |records|
  {
    if records != [] {
      DeleteIsSubsequence(records[1..], recordId);
      var rest := DeleteRecord(records[1..], recordId);
      if records[0].id != recordId {
        assert DeleteRecord(records, recordId) == [records[0]] + rest;
        assert ([records[0]] + rest)[1..] == rest;
      } else if rest != [] {
        assert rest[0].id != recordId;
      }
    }
  }

  /** Deleting an id no record has changes nothing. */
  lemma {:induction false} DeleteAbsentIsIdentity(records: seq<HistoryRecord>, recordId: int)
    requires forall i :: 0 <= i < |records| ==> records[i].id != recordId
    ensures DeleteRecord(records, recordId) == records
    decreases |records|
  {
    if records != [] {
      DeleteAbsentIsIdentity(records[1..], recordId);
      assert [records[0]] + records[1..] == records;
    }
  }

  /** Deleting the same id twice is deleting it once. */
  lemma DeleteIdempotent(records: seq<HistoryRecord>, recordId: int)
    ensures DeleteRecord(DeleteRecord(records, recordId), recordId) == DeleteRecord(records, recordId)
  {
    DeleteAbsentIsIdentity(DeleteRecord(records, recordId), recordId);
  }

  /** Deletes of two ids commute. */
  lemma {:induction false} DeletesCommute(records: seq<HistoryRecord>, a: int, b: int)
    ensures DeleteRecord(DeleteRecord(records, a), b) == DeleteRecord(DeleteRecord(records, b), a)
    decreases |records|
  {
    if records != [] {
      DeletesCommute(records[1..], a, b);
      var x := records[0];
      var ra, rb := DeleteRecord(records[1..], a), DeleteRecord(records[1..], b);
      if x.id != a {
        DeleteDistributes([x], ra, b);
      }
      if x.id != b {
        DeleteDistributes([x], rb, a);
      }
    }
  }

  /** The successful branch of `handleDelete`: only the records change. */
  function OnRecordDeleted(st: PageState, recordId: int): (st': PageState)
    ensures st'.records == DeleteRecord(st.records, recordId)
    ensures st'.locations == st.locations && st'.selected == st.selected && st'.exportFormat == st.exportFormat
  {
    st.(records := DeleteRecord(st.records, recordId))
  }

  /** The successful branch of `fetchLocations`: the list is stored and, if
      it is non-empty, its first location becomes the selection. */
  function OnLocationsLoaded(st: PageState, loaded: seq<LocationEntry>): (st': PageState)
    ensures st'.locations == loaded
    ensures |loaded| > 0 ==> st'.selected == Selected(loaded[0].id)
    ensures |loaded| == 0 ==> st'.selected == st.selected
    ensures st'.records == st.records && st'.exportFormat == st.exportFormat
  {
    var withList := st.(locations := loaded);
    if |loaded| > 0 then withList.(selected := Selected(loaded[0].id)) else withList
  }

  /** After a non-empty list arrives, the selection names a listed location;
      loading the same list again changes nothing. */
  lemma LoadedSelectionIsListed(st: PageState, loaded: seq<LocationEntry>)
    ensures var st' := OnLocationsLoaded(st, loaded);
      |loaded| > 0 ==> exists i :: 0 <= i < |loaded| && st'.selected == Selected(loaded[i].id)
    ensures OnLocationsLoaded(OnLocationsLoaded(st, loaded), loaded) == OnLocationsLoaded(st, loaded)
  {
    if |loaded| > 0 {
      assert OnLocationsLoaded(st, loaded).selected == Selected(loaded[0].id);
    }
  }

  /** The formats the export dialog offers, in menu order. */
  const OfferedFormats: seq<string> := ["json", "csv", "pdf", "markdown", "xml"]

  const FilenameStem := "weather_data."

  /** The `download` attribute given to the exported file. */
  function ExportFilename(format: string): (name: string)
    ensures |name| == |FilenameStem| + |format|
    ensures FilenameStem <= name
    ensures name[|FilenameStem|..] == format
  {
    FilenameStem + format
  }

  /** Different formats give different filenames, and the default format
      gives `weather_data.json`. */
  lemma ExportFilenameInjective(a: string, b: string)
    requires ExportFilename(a) == ExportFilename(b)
    ensures a == b
  {
    assert a == ExportFilename(a)[|FilenameStem|..];
  }

  lemma DefaultExportFilename()
    ensures ExportFilename(InitialState().exportFormat) == "weather_data.json"
  {
  }
}
