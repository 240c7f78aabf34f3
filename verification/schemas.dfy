/** Request-body validators of the back end: the export format and the
    coordinate ranges of a location. */
module Schemas {

  import opened Results

  /** The alternatives of the export-format pattern, in pattern order. */
  const AcceptedFormats: seq<string> := ["json", "csv", "pdf", "xml", "markdown"]

  /** `ExportFormat.format`: the anchored pattern `^(json|csv|pdf|xml|markdown)$`
      matches the whole string against one alternative. */
  predicate ValidExportFormat(format: string) {
    exists i :: 0 <= i < |AcceptedFormats| && format == AcceptedFormats[i]
  }

  /** Exactly the five names are accepted. */
  lemma ExportFormatWhitelist(format: string)
    ensures ValidExportFormat(format) <==>
      format == "json" || format == "csv" || format == "pdf" || format == "xml" || format == "markdown"
  {
    if format == "json" { assert format == AcceptedFormats[0]; }
    if format == "csv" { assert format == AcceptedFormats[1]; }
    if format == "pdf" { assert format == AcceptedFormats[2]; }
    if format == "xml" { assert format == AcceptedFormats[3]; }
    if format == "markdown" { assert format == AcceptedFormats[4]; }
  }

  /** The pattern is anchored at both ends: a longer or shorter string that
      merely contains an accepted name is refused. */
  lemma ExportFormatAnchored()
    ensures !ValidExportFormat("jsonx")
    ensures !ValidExportFormat("xjson")
    ensures !ValidExportFormat("")
    ensures !ValidExportFormat("JSON")
  {
    ExportFormatWhitelist("jsonx");
    ExportFormatWhitelist("xjson");
    ExportFormatWhitelist("");
    ExportFormatWhitelist("JSON");
  }

  /** A field constraint that a value failed. */
  datatype FieldError =
    | LatitudeOutOfRange(latitude: real)
    | LongitudeOutOfRange(longitude: real)

  /** The fields of `LocationBase`; `LocationCreate` has the same ones. */
  datatype LocationFields = LocationFields(name: string, latitude: real, longitude: real, country: string)

  /** Pydantic validation of `LocationBase`: every field is checked and all
      failures are reported, latitude before longitude. */
  function CheckLocationBase(f: LocationFields): (r: Result<LocationFields, seq<FieldError>>)
    ensures r.Success? <==> -90.0 <= f.latitude <= 90.0 && -180.0 <= f.longitude <= 180.0
    ensures r.Success? ==> r.value == f
    ensures r.Failure? ==>
      (LatitudeOutOfRange(f.latitude) in r.error <==> !(-90.0 <= f.latitude <= 90.0))
      && (LongitudeOutOfRange(f.longitude) in r.error <==> !(-180.0 <= f.longitude <= 180.0))
      && |r.error| == (if -90.0 <= f.latitude <= 90.0 then 0 else 1) + (if -180.0 <= f.longitude <= 180.0 then 0 else 1)
  {
    var latErrors := if -90.0 <= f.latitude <= 90.0 then [] else [LatitudeOutOfRange(f.latitude)];
    var lonErrors := if -180.0 <= f.longitude <= 180.0 then [] else [LongitudeOutOfRange(f.longitude)];
    var errors := latErrors + lonErrors;
    if errors == [] then Success(f) else Failure(errors)
  }

  /** `LocationCreate` declares no fields or constraints of its own. */
  function CheckLocationCreate(f: LocationFields): Result<LocationFields, seq<FieldError>> {
    CheckLocationBase(f)
  }

  /** Both ends of both ranges are inclusive; just beyond them is refused. */
  lemma CoordinateBoundsInclusive(name: string, country: string)
    ensures CheckLocationBase(LocationFields(name, -90.0, -180.0, country)).Success?
    ensures CheckLocationBase(LocationFields(name, 90.0, 180.0, country)).Success?
    ensures CheckLocationBase(LocationFields(name, 90.5, 0.0, country)).Failure?
    ensures CheckLocationBase(LocationFields(name, 0.0, -180.5, country)).Failure?
  {
  }

  /** Creating a location accepts and refuses exactly what the base does. */
  lemma CreateAddsNoConstraint(f: LocationFields)
    ensures CheckLocationCreate(f).Success? <==> CheckLocationBase(f).Success?
    ensures CheckLocationCreate(f).Success? <==> -90.0 <= f.latitude <= 90.0 && -180.0 <= f.longitude <= 180.0
  {
  }
}
