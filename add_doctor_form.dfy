/**
 * The form of components/add-doctor-form.tsx: its field values, the handlers
 * that edit one field each, the client-side checks run on submit, the JSON
 * payload it posts to `POST /api/doctors`, and what it does with the answer.
 *
 * The component's state (`formData`, `isSubmitting`) is a class whose methods
 * are the handlers. The request itself is not made here: `BeginSubmit` hands
 * back the payload and `FinishSubmit` takes the endpoint's response.
 */
module AddDoctorForm {
  import opened Js
  import CreateDoctor

  datatype FormAddress = FormAddress(locality: string, region: string)
  datatype FormLocation = FormLocation(latitude: string, longitude: string)

  datatype FormData = FormData(
    name: string,
    specialization: string,
    description: string,
    priceRange: string,
    image: string,
    url: string,
    address: FormAddress,
    location: FormLocation)

  /** Lines 17-32 and 158-173: every field empty. */
  const EmptyForm: FormData := FormData("", "", "", "", "", "", FormAddress("", ""), FormLocation("", ""))

  /** The top-level fields that `handleInputChange` and `handleSelectChange` set by name. */
  datatype TopField = Name | Specialization | Description | PriceRange | Image | Url

  function Get(d: FormData, field: TopField): string {
    match field
    case Name => d.name
    case Specialization => d.specialization
    case Description => d.description
    case PriceRange => d.priceRange
    case Image => d.image
    case Url => d.url
  }

  /** Lines 82 and 86: `{ ...prev, [name]: value }`. */
  function Set(d: FormData, field: TopField, value: string): (r: FormData)
    ensures Get(r, field) == value
    ensures forall g :: g != field ==> Get(r, g) == Get(d, g)
    ensures r.address == d.address && r.location == d.location
  {
    match field
    case Name => d.(name := value)
    case Specialization => d.(specialization := value)
    case Description => d.(description := value)
    case PriceRange => d.(priceRange := value)
    case Image => d.(image := value)
    case Url => d.(url := value)
  }

  /** A form is equal to another exactly when all eight text fields agree. */
  lemma FormDataExtensional(a: FormData, b: FormData)
    requires forall g :: Get(a, g) == Get(b, g)
    requires a.address == b.address && a.location == b.location
    ensures a == b
  {
    assert Get(a, Name) == Get(b, Name) && Get(a, Specialization) == Get(b, Specialization);
    assert Get(a, Description) == Get(b, Description) && Get(a, PriceRange) == Get(b, PriceRange);
    assert Get(a, Image) == Get(b, Image) && Get(a, Url) == Get(b, Url);
  }

  /** Setting a field to the value it already has changes nothing; a later set wins. */
  lemma SetIdempotent(d: FormData, field: TopField, v: string, w: string)
    ensures Set(d, field, Get(d, field)) == d
    ensures Set(Set(d, field, v), field, w) == Set(d, field, w)
  {
    FormDataExtensional(Set(d, field, Get(d, field)), d);
    FormDataExtensional(Set(Set(d, field, v), field, w), Set(d, field, w));
  }

  const RequiredMessage: string := "Please fill all required fields"
  const AddressMessage: string := "Please fill address information"
  const LocationMessage: string := "Please fill location information"

  predicate TopFieldsFilled(d: FormData) {
    d.name != "" && d.specialization != "" && d.description != "" && d.priceRange != "" && d.url != "" && d.image != ""
  }

  predicate AddressFilled(d: FormData) {
    d.address.locality != "" && d.address.region != ""
  }

  predicate LocationFilled(d: FormData) {
    d.location.latitude != "" && d.location.longitude != ""
  }

  /** Lines 97-129: the toast of the first check that fails, if any. */
  function ClientCheck(d: FormData): (r: Option<string>)
    ensures r == None <==> TopFieldsFilled(d) && AddressFilled(d) && LocationFilled(d)
    ensures r == Some(RequiredMessage) <==> exists g :: Get(d, g) == ""
    ensures r == Some(AddressMessage) <==> TopFieldsFilled(d) && !AddressFilled(d)
    ensures r == Some(LocationMessage) <==> TopFieldsFilled(d) && AddressFilled(d) && !LocationFilled(d)
  {
    assert RequiredMessage[13] == 'l' && AddressMessage[13] == 'd' && LocationMessage[13] == 'o';
    if !TopFieldsFilled(d) then
      assert d.name == "" ==> Get(d, Name) == "";
      assert d.specialization == "" ==> Get(d, Specialization) == "";
      assert d.description == "" ==> Get(d, Description) == "";
      assert d.priceRange == "" ==> Get(d, PriceRange) == "";
      assert d.url == "" ==> Get(d, Url) == "";
      assert d.image == "" ==> Get(d, Image) == "";
      Some(RequiredMessage)
    else if !AddressFilled(d) then Some(AddressMessage)
    else if !LocationFilled(d) then Some(LocationMessage)
    else None
  }

  /** `JSON.stringify` of a number: NaN is written as null. */
  function NumberJson(x: JsNum): Json {
    match x
    case Num(n) => Number(n as real)
    case NaN => Null
  }

  /** Lines 139-143: `{ ...formData, priceRange: Number.parseInt(formData.priceRange), rating: null }`. */
  function Payload(d: FormData): (p: Json)
    ensures p.Obj? && "data" !in p.fields
    ensures "rating" in p.fields && p.fields["rating"] == Null
    ensures "priceRange" in p.fields && p.fields["priceRange"] == NumberJson(ParseInt(d.priceRange))
    ensures "name" in p.fields && p.fields["name"] == Str(d.name)
  {
    Obj(map[
      "name" := Str(d.name),
      "specialization" := Str(d.specialization),
      "description" := Str(d.description),
      "priceRange" := NumberJson(ParseInt(d.priceRange)),
      "image" := Str(d.image),
      "url" := Str(d.url),
      "address" := Obj(map["locality" := Str(d.address.locality), "region" := Str(d.address.region)]),
      "location" := Obj(map["latitude" := Str(d.location.latitude), "longitude" := Str(d.location.longitude)]),
      "rating" := Null])
  }

  /** Lines 148-155 and 177-183: the toast shown once the endpoint has answered. */
  function ResultToast(resp: CreateDoctor.Response): (message: string)
    ensures 200 <= resp.status < 300 ==> message == "Doctor added successfully"
    ensures !(200 <= resp.status < 300) && resp.body.Failure? && resp.body.error != "" ==> message == resp.body.error
    ensures !(200 <= resp.status < 300) && !(resp.body.Failure? && resp.body.error != "") ==> message == "Failed to add doctor"
  {
    if 200 <= resp.status < 300 then "Doctor added successfully"
    else
      match resp.body
      case Failure(error) => if error != "" then error else "Failed to add doctor"
      case Added(_, _) => "Failed to add doctor"
  }

  /** What pressing submit leads to: a toast and no request, or the payload posted. */
  datatype SubmitStart = Blocked(toast: string) | Sent(payload: Json)

  class Form {
    var data: FormData
    var isSubmitting: bool

    /** Lines 16-32. */
    constructor ()
      ensures data == EmptyForm && !isSubmitting
    {
      data := EmptyForm;
      isSubmitting := false;
    }

    /** Lines 80-87: `handleInputChange` and `handleSelectChange`. */
    method Change(field: TopField, value: string)
      modifies this
      ensures data == Set(old(data), field, value)
      ensures isSubmitting == old(isSubmitting)
    {
      data := Set(data, field, value);
    }

    /** Lines 302-310. */
    method ChangeLocality(value: string)
      modifies this
      ensures data == old(data).(address := old(data).address.(locality := value))
      ensures isSubmitting == old(isSubmitting)
    {
      data := data.(address := data.address.(locality := value));
    }

    /** Lines 321-329. */
    method ChangeRegion(value: string)
      modifies this
      ensures data == old(data).(address := old(data).address.(region := value))
      ensures isSubmitting == old(isSubmitting)
    {
      data := data.(address := data.address.(region := value));
    }

    /** Lines 355-363. */
    method ChangeLatitude(value: string)
      modifies this
      ensures data == old(data).(location := old(data).location.(latitude := value))
      ensures isSubmitting == old(isSubmitting)
    {
      data := data.(location := data.location.(latitude := value));
    }

    /** Lines 377-385. */
    method ChangeLongitude(value: string)
      modifies this
      ensures data == old(data).(location := old(data).location.(longitude := value))
      ensures isSubmitting == old(isSubmitting)
    {
      data := data.(location := data.location.(longitude := value));
    }

    /** Lines 93-144: run the checks in order; only when all pass, raise `isSubmitting` and post. */
    method BeginSubmit() returns (start: SubmitStart)
      modifies this
      ensures data == old(data)
      ensures start.Sent? <==> ClientCheck(data) == None
      ensures start.Sent? ==> start.payload == Payload(data) && isSubmitting
      ensures start.Blocked? ==> Some(start.toast) == ClientCheck(data) && isSubmitting == old(isSubmitting)
    {
      if data.name == "" || data.specialization == "" || data.description == ""
        || data.priceRange == "" || data.url == "" || data.image == "" {
        return Blocked(RequiredMessage);
      }
      if data.address.locality == "" || data.address.region == "" {
        return Blocked(AddressMessage);
      }
      if data.location.latitude == "" || data.location.longitude == "" {
        return Blocked(LocationMessage);
      }
      isSubmitting := true;
      start := Sent(Payload(data));
    }

    /** Lines 146-186: reset the form after a success, and lower `isSubmitting` in every case. */
    method FinishSubmit(resp: CreateDoctor.Response) returns (toast: string)
      modifies this
      ensures toast == ResultToast(resp)
      ensures !isSubmitting
      ensures data == if 200 <= resp.status < 300 then EmptyForm else old(data)
    {
      toast := ResultToast(resp);
      if 200 <= resp.status < 300 {
        data := EmptyForm;
      }
      isSubmitting := false;
    }
  }

  // ---------------------------------------------------------------- against the endpoint

  /** The fields of a payload as the endpoint reads them. */
  lemma PayloadFields(d: FormData)
    ensures CreateDoctor.FieldOf(Payload(d), "name") == Some(Str(d.name))
    ensures CreateDoctor.FieldOf(Payload(d), "specialization") == Some(Str(d.specialization))
    ensures CreateDoctor.FieldOf(Payload(d), "description") == Some(Str(d.description))
    ensures CreateDoctor.FieldOf(Payload(d), "priceRange") == Some(NumberJson(ParseInt(d.priceRange)))
    ensures CreateDoctor.FieldOf(Payload(d), "image") == Some(Str(d.image))
    ensures CreateDoctor.FieldOf(Payload(d), "url") == Some(Str(d.url))
    ensures CreateDoctor.FieldOf(Payload(d), "data") == None
  {
  }

  /** The address and location of a payload as the endpoint reads them. */
  lemma PayloadPlaces(d: FormData)
    ensures CreateDoctor.AddressPresent(Payload(d)) <==> AddressFilled(d)
    ensures CreateDoctor.LocationPresent(Payload(d)) <==> LocationFilled(d)
  {
    PayloadAddress(d);
    PayloadLocation(d);
  }

  lemma PayloadAddress(d: FormData)
    ensures CreateDoctor.AddressPresent(Payload(d)) <==> AddressFilled(d)
  {
    assert CreateDoctor.FieldOf(Payload(d), "address")
      == Some(Obj(map["locality" := Str(d.address.locality), "region" := Str(d.address.region)]));
  }

  lemma PayloadLocation(d: FormData)
    ensures CreateDoctor.LocationPresent(Payload(d)) <==> LocationFilled(d)
  {
    assert CreateDoctor.FieldOf(Payload(d), "location")
      == Some(Obj(map["latitude" := Str(d.location.latitude), "longitude" := Str(d.location.longitude)]));
  }

  /**
   * A form the client accepts is never stored by the endpoint as written: it is
   * refused for its price when that parses to 0 or NaN, and otherwise fails
   * with a 500 because the payload has no `data` object.
   */
  lemma AcceptedFormNeverCreated(d: FormData, storeAccepts: CreateDoctor.NewDoctor -> bool)
    requires ClientCheck(d) == None
    ensures var resp := CreateDoctor.Respond(CreateDoctor.Parsed(Payload(d)), storeAccepts);
      && resp.status != 201
      && (ParseInt(d.priceRange) in {NaN, Num(0)} <==> resp == CreateDoctor.Response(400, CreateDoctor.Failure(CreateDoctor.MissingFieldMessage("priceRange"))))
      && (resp == CreateDoctor.ServerError <==> ParseInt(d.priceRange) !in {NaN, Num(0)})
  {
    var p := Payload(d);
    PayloadFields(d);
    assert CreateDoctor.RequiredFields[3] == "priceRange";
    CreateDoctor.FirstFalsyFieldReported(p, 3);
    if ParseInt(d.priceRange) in {NaN, Num(0)} {
      assert !Truthy(CreateDoctor.FieldOf(p, CreateDoctor.RequiredFields[3]));
    } else {
      FilledFormValidates(d);
    }
  }

  /** A form the client accepts, with a price that parses to a non-zero number, passes every endpoint check. */
  lemma FilledFormValidates(d: FormData)
    requires ClientCheck(d) == None
    requires ParseInt(d.priceRange) !in {NaN, Num(0)}
    ensures CreateDoctor.Validation(Payload(d)) == None
  {
    var p := Payload(d);
    PayloadFields(d);
    PayloadPlaces(d);
    CreateDoctor.RequiredFieldsPass(p);
  }

  /** With the record built from the body, such a form is created whenever the store accepts its row. */
  lemma FilledFormCreatedFromBody(d: FormData, storeAccepts: CreateDoctor.NewDoctor -> bool)
    requires ClientCheck(d) == None
    requires ParseInt(d.priceRange) !in {NaN, Num(0)}
    requires storeAccepts(CreateDoctor.RecordFrom(Some(Payload(d))).value)
    ensures CreateDoctor.RespondFromBody(CreateDoctor.Parsed(Payload(d)), storeAccepts).status == 201
  {
    FilledFormValidates(d);
    CreateDoctor.ValidatedBodyIsStored(Payload(d), storeAccepts);
  }
}
