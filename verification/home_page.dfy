/** The home page: the same weigh-in form with a fixed list of companies. Submitting a
    valid form only builds the record and writes it to the console; nothing is sent. */
module HomePage {
  import opened Base
  import opened Decimal
  import opened FormSchema

  /** The location shown when the query string names none. */
  const DefaultLocation := "1번 계근대"

  /** The four fixed choices; their values are placeholders, not the names shown. */
  const FixedCompanies: seq<SelectOption> := [
    SelectOption("company1", "○○물류"),
    SelectOption("company2", "△△운송"),
    SelectOption("company3", "□□화물"),
    SelectOption("company4", "◇◇택배")]

  /** The fixed choices are `company1` … `company4`, pairwise different, and none is
      stored under the name it shows. */
  lemma FixedCompaniesShape()
    ensures |FixedCompanies| == 4
    ensures forall i :: 0 <= i < 4 ==> FixedCompanies[i].value == "company" + [DigitChar(i + 1)]
    ensures forall i, j :: 0 <= i < j < 4 ==> FixedCompanies[i].value != FixedCompanies[j].value
    ensures forall i :: 0 <= i < 4 ==> FixedCompanies[i].value != FixedCompanies[i].shown
  {
    assert DigitChar(1) == '1' && DigitChar(2) == '2' && DigitChar(3) == '3' && DigitChar(4) == '4';
  }

  /** The record the page logs. The weight is the form text read as a number (`None`
      when it does not read as one); the photo is the preview, possibly absent. */
  datatype LogData = LogData(
    location: string,
    company: string,
    driverName: string,
    phoneNumber: string,
    weight: Option<int>,
    photoUrl: Option<string>,
    notes: string,
    createdAt: string)

  class HomeForm {
    var location: string
    var values: FormValues
    var photoPreview: Option<string>
    var isSubmitting: bool

    /** The form once mounted: the location from the query string, blank values, no
        photo, not submitting. */
    constructor (locationParam: Option<string>)
      ensures location == LocationOrDefault(locationParam, DefaultLocation)
      ensures values == Blank && photoPreview == None && !isSubmitting
    {
      location := LocationOrDefault(locationParam, DefaultLocation);
      values, photoPreview, isSubmitting := Blank, None, false;
    }

    /** The user edits the fields. */
    method Edit(v: FormValues)
      modifies this
      ensures values == v
      ensures location == old(location) && photoPreview == old(photoPreview) && isSubmitting == old(isSubmitting)
    {
      values := v;
    }

    /** A chosen picture has been read as a data URL. */
    method SetPhoto(dataUrl: string)
      modifies this
      ensures photoPreview == Some(dataUrl)
      ensures location == old(location) && values == old(values) && isSubmitting == old(isSubmitting)
    {
      photoPreview := Some(dataUrl);
    }

    /** The delete button on the preview. */
    method RemovePhoto()
      modifies this
      ensures photoPreview == None
      ensures location == old(location) && values == old(values) && isSubmitting == old(isSubmitting)
    {
      photoPreview := None;
    }

    /** Submission, stamped with the current time `nowIso`: an invalid form submits
        nothing; a valid one yields the logged record, then the form and photo are
        cleared, and the form ends not submitting. No call can fail here. */
    method Submit(nowIso: string) returns (logged: Option<LogData>)
      modifies this
      ensures location == old(location)
      ensures logged.Some? <==> !old(isSubmitting) && FormValid(old(values))
      ensures logged.None? ==>
        values == old(values) && photoPreview == old(photoPreview) && isSubmitting == old(isSubmitting)
      ensures logged.Some? ==>
        && logged.value == LogData(old(location), old(values).company, old(values).driverName,
                                   old(values).phoneNumber, ParseNumeric(old(values).weight),
                                   old(photoPreview), old(values).notes, nowIso)
        && values == Blank && photoPreview == None && !isSubmitting
    {
      if isSubmitting || Validate(values) != [] {
        return None;
      }
      isSubmitting := true;
      logged := Some(LogData(location, values.company, values.driverName, values.phoneNumber,
                             ParseNumeric(values.weight), photoPreview, values.notes, nowIso));
      values, photoPreview := Blank, None;
      isSubmitting := false;
    }

    /** The cancel button: clears the form and the photo. */
    method Cancel()
      modifies this
      ensures values == Blank && photoPreview == None
      ensures location == old(location) && isSubmitting == old(isSubmitting)
    {
      values, photoPreview := Blank, None;
    }
  }
}
