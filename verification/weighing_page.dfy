/** The weighing page: the weigh-in form wired to the `weighing` router. It shows the
    active companies as choices, sends the form with the station's location and the
    photo, and resets itself after a successful submission. */
module WeighingPage {
  import opened Base
  import opened Decimal
  import opened Schema
  import opened Queries
  import opened DbRaw
  import opened RpcInput
  import opened FormSchema
  import WeighingRouter

  /** The location shown when the query string names none. */
  const UnknownLocation := "알 수 없음"

  /** One choice per company, in the order given, each named by the company. */
  function CompanyOptions(cs: seq<Company>): (opts: seq<SelectOption>)
    ensures |opts| == |cs|
    ensures forall i :: 0 <= i < |cs| ==> opts[i].value == cs[i].name && opts[i].shown == cs[i].name
  {
    seq(|cs|, i requires 0 <= i < |cs| => SelectOption(cs[i].name, cs[i].name))
  }

  /** The choices built from the companies `getCompanies` returns: one per active
      company, no two with the same value, in ascending name order. */
  lemma OptionsOfActiveCompanies(db: Database)
    requires db.Valid()
    ensures var opts := CompanyOptions(db.ActiveCompanies());
      && |opts| == |ActiveOnly(db.companies)|
      && (forall i, j :: 0 <= i < j < |opts| ==> opts[i].value != opts[j].value)
      && (forall c :: c in db.companies && c.isActive ==> SelectOption(c.name, c.name) in opts)
  {
    var cs := db.ActiveCompanies();
    forall c | c in db.companies && c.isActive ensures SelectOption(c.name, c.name) in CompanyOptions(cs) {
      OptionOfEach(cs, c);
    }
  }

  /** Every company given has its choice. */
  lemma OptionOfEach(cs: seq<Company>, c: Company)
    requires c in cs
    ensures SelectOption(c.name, c.name) in CompanyOptions(cs)
  {
    var i :| 0 <= i < |cs| && cs[i] == c;
    assert CompanyOptions(cs)[i] == SelectOption(c.name, c.name);
  }

  /** `photoPreview || undefined`: no preview, or an empty one, sends no photo. */
  function PhotoField(photo: Option<string>): Option<string>
  {
    if photo.Some? && photo.value != "" then photo else None
  }

  function WithPhoto(m: Input, photo: Option<string>): Input
  {
    if PhotoField(photo).Some? then m["photoUrl" := JString(PhotoField(photo).value)] else m
  }

  /** The payload as the page builds it: the weight is sent as the text typed into the
      form. `notes` is not sent. */
  function PayloadAsWritten(location: string, v: FormValues, photo: Option<string>): (p: Input)
    ensures p.Keys == {"location", "company", "driverName", "phoneNumber", "weight"}
                      + (if PhotoField(photo).Some? then {"photoUrl"} else {})
    ensures p["location"] == JString(location) && p["company"] == JString(v.company)
    ensures p["driverName"] == JString(v.driverName) && p["phoneNumber"] == JString(v.phoneNumber)
    ensures p["weight"] == JString(v.weight)
    ensures "photoUrl" in p ==> photo.Some? && photo.value != "" && p["photoUrl"] == JString(photo.value)
  {
    WithPhoto(map[
      "location" := JString(location), "company" := JString(v.company),
      "driverName" := JString(v.driverName), "phoneNumber" := JString(v.phoneNumber),
      "weight" := JString(v.weight)], photo)
  }

  /** The router wants a number for `weight`, so the payload as built is refused for
      every form, valid or not, with `weight` as its only issue. */
  lemma PayloadAsWrittenRejected(location: string, v: FormValues, photo: Option<string>)
    ensures WeighingRouter.ParseCreate(PayloadAsWritten(location, v, photo)) == Err(["weight"])
  {
    WeighingRouter.OnlyWeightRejected(PayloadAsWritten(location, v, photo));
  }

  /** The payload with the weight read as a number first; text that is not a number
      becomes `null`, which the router refuses. */
  function Payload(location: string, v: FormValues, photo: Option<string>): (p: Input)
    ensures "weight" in p && p == PayloadAsWritten(location, v, photo)["weight" := p["weight"]]
    ensures ParseNumeric(v.weight).Some? ==> p["weight"] == JNumber(Num(ParseNumeric(v.weight).value))
    ensures ParseNumeric(v.weight).None? ==> p["weight"] == JNull
  {
    WithPhoto(map[
      "location" := JString(location), "company" := JString(v.company),
      "driverName" := JString(v.driverName), "phoneNumber" := JString(v.phoneNumber),
      "weight" := match ParseNumeric(v.weight) case Some(h) => JNumber(Num(h)) case None => JNull], photo)
  }

  /** A weight that reads as a number is accepted, and every field reaches the router
      unchanged. */
  lemma PayloadAccepted(location: string, v: FormValues, photo: Option<string>)
    requires ParseNumeric(v.weight).Some?
    ensures WeighingRouter.ParseCreate(Payload(location, v, photo))
         == Ok(WeighingRouter.CreateInput(location, v.company, v.driverName, v.phoneNumber,
                                          Num(ParseNumeric(v.weight).value), PhotoField(photo), None))
  {
    var p := Payload(location, v, photo);
    WeighingRouter.CreateSchemaMeans(p);
    assert WeighingRouter.CreateShape(p);
  }

  /** A weight that is not a number is refused, with `weight` as the only issue. */
  lemma PayloadWithoutNumberRejected(location: string, v: FormValues, photo: Option<string>)
    requires ParseNumeric(v.weight).None?
    ensures WeighingRouter.ParseCreate(Payload(location, v, photo)) == Err(["weight"])
  {
    WeighingRouter.OnlyWeightRejected(Payload(location, v, photo));
  }

  class WeighingForm {
    var location: string
    var values: FormValues
    var photoPreview: Option<string>
    var isSubmitting: bool

    /** The form once mounted: the location from the query string, blank values, no
        photo, not submitting. */
    constructor (locationParam: Option<string>)
      ensures location == LocationOrDefault(locationParam, UnknownLocation)
      ensures values == Blank && photoPreview == None && !isSubmitting
    {
      location := LocationOrDefault(locationParam, UnknownLocation);
      values, photoPreview, isSubmitting := Blank, None, false;
    }

    /** The user edits the fields. */
    method Edit(v: FormValues)
      modifies this
      ensures values == v
      ensures location == old(location) && photoPreview == old(photoPreview) && isSubmitting == old(isSubmitting)
    {
      values := v;
    }

    /** A chosen picture has been read as a data URL. */
    method SetPhoto(dataUrl: string)
      modifies this
      ensures photoPreview == Some(dataUrl)
      ensures location == old(location) && values == old(values) && isSubmitting == old(isSubmitting)
    {
      photoPreview := Some(dataUrl);
    }

    /** The delete button on the preview. */
    method RemovePhoto()
      modifies this
      ensures photoPreview == None
      ensures location == old(location) && values == old(values) && isSubmitting == old(isSubmitting)
    {
      photoPreview := None;
    }

    /** The submit button: disabled while a submission runs; an invalid form shows its
        issues and submits nothing; a valid one marks the form as submitting and yields
        the payload the page builds, with the weight as typed. */
    method BeginSubmit() returns (payload: Option<Input>)
      modifies this
      ensures location == old(location) && values == old(values) && photoPreview == old(photoPreview)
      ensures payload.Some? <==> !old(isSubmitting) && FormValid(old(values))
      ensures payload.Some? ==> isSubmitting && payload.value == PayloadAsWritten(location, values, photoPreview)
      ensures payload.None? ==> isSubmitting == old(isSubmitting)
    {
      if isSubmitting || Validate(values) != [] {
        return None;
      }
      isSubmitting := true;
      payload := Some(PayloadAsWritten(location, values, photoPreview));
    }

    /** The same, yielding the payload with the weight read as a number. */
    method BeginSubmitParsed() returns (payload: Option<Input>)
      modifies this
      ensures location == old(location) && values == old(values) && photoPreview == old(photoPreview)
      ensures payload.Some? <==> !old(isSubmitting) && FormValid(old(values))
      ensures payload.Some? ==> isSubmitting && payload.value == Payload(location, values, photoPreview)
      ensures payload.None? ==> isSubmitting == old(isSubmitting)
    {
      if isSubmitting || Validate(values) != [] {
        return None;
      }
      isSubmitting := true;
      payload := Some(Payload(location, values, photoPreview));
    }

    /** The end of a submission: on success the form and the photo are cleared, on
        failure both are kept; either way the form is no longer submitting. */
    method FinishSubmit<T>(reply: Reply<T>)
      modifies this
      ensures !isSubmitting && location == old(location)
      ensures reply.Done? ==> values == Blank && photoPreview == None
      ensures !reply.Done? ==> values == old(values) && photoPreview == old(photoPreview)
    {
      if reply.Done? {
        values, photoPreview := Blank, None;
      }
      isSubmitting := false;
    }

    /** The cancel button: clears the form and the photo. */
    method Cancel()
      modifies this
      ensures values == Blank && photoPreview == None
      ensures location == old(location) && isSubmitting == old(isSubmitting)
    {
      values, photoPreview := Blank, None;
    }

    /** A whole submission against the mounted router, as the page makes it: the
        weight goes out as text, so every valid form is refused with the issue
        `weight`; nothing is stored, the form and the photo are kept, and the form is
        no longer submitting. */
    method Submit(db: Database) returns (reply: Option<Reply<Record>>)
      requires db.Valid()
      modifies this, db
      ensures db.Valid()
      ensures db.logs == old(db.logs) && db.companies == old(db.companies)
      ensures location == old(location) && values == old(values) && photoPreview == old(photoPreview)
      ensures old(isSubmitting) || !FormValid(old(values)) ==>
        reply.None? && isSubmitting == old(isSubmitting)
      ensures !old(isSubmitting) && FormValid(old(values)) ==>
        reply == Some(BadRequest(["weight"])) && !isSubmitting
    {
      var payload := BeginSubmit();
      if payload.None? {
        return None;
      }
      PayloadAsWrittenRejected(location, values, photoPreview);
      var r := WeighingRouter.Create(db, payload.value);
      FinishSubmit(r);
      reply := Some(r);
    }

    /** A whole submission with the weight read as a number first: a valid form whose
        weight reads as a number in range is stored as typed, and the form is cleared. */
    method SubmitParsed(db: Database) returns (reply: Option<Reply<Record>>)
      requires db.Valid()
      modifies this, db
      ensures db.Valid()
      ensures old(isSubmitting) || !FormValid(old(values)) ==>
        reply.None? && values == old(values) && db.logs == old(db.logs)
      ensures !old(isSubmitting) && FormValid(old(values)) && old(db.outage).None?
              && ParseNumeric(old(values).weight).Some? && InWeightDomain(ParseNumeric(old(values).weight).value) ==>
        && reply.Some? && reply.value.Done?
        && db.logs == old(db.logs) + [VehicleLog(old(db.nextId), old(location), old(values).company,
                                                  old(values).driverName, old(values).phoneNumber,
                                                  ParseNumeric(old(values).weight).value,
                                                  PhotoField(old(photoPreview)), old(db.clock))]
        && values == Blank && photoPreview == None && !isSubmitting
    {
      var payload := BeginSubmitParsed();
      if payload.None? {
        return None;
      }
      var v, loc, photo := old(values), location, photoPreview;
      if ParseNumeric(v.weight).Some? {
        PayloadAccepted(loc, v, photo);
      }
      var r := WeighingRouter.Create(db, payload.value);
      FinishSubmit(r);
      reply := Some(r);
    }
  }
}
