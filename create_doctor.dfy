/**
 * The create endpoint `POST /api/doctors` of app/api/doctors/route.ts: check
 * the required fields of the request body in a fixed order, then its address,
 * then its location, and build the row to insert. The row is built from
 * `body.data`, not from the body that was checked.
 *
 * The insert itself (`prisma.doctor.create`) is a parameter: `storeAccepts`
 * says whether the store takes the row or throws.
 */
module CreateDoctor {
  import opened Js

  /** What `request.json()` gives: a body it cannot parse (it throws) or a JSON value. */
  datatype RequestBody = Unparseable | Parsed(json: Json)

  datatype NewAddress = NewAddress(locality: Json, region: Json)
  datatype NewLocation = NewLocation(latitude: Json, longitude: Json)

  /** The `data` object passed to `prisma.doctor.create`; `None` fields are undefined. */
  datatype NewDoctor = NewDoctor(
    name: Value,
    specialization: Value,
    description: Value,
    priceRange: Value,
    image: Value,
    url: Value,
    rating: Json,
    address: NewAddress,
    location: NewLocation)

  datatype ResponseBody = Failure(error: string) | Added(message: string, doctor: NewDoctor)
  datatype Response = Response(status: int, body: ResponseBody)

  const RequiredFields: seq<string> := ["name", "specialization", "description", "priceRange", "image", "url"]
  const AddressError: string := "Missing or invalid address information"
  const LocationError: string := "Missing or invalid location information"
  const ServerError: Response := Response(500, Failure("Failed to add doctor"))

  function MissingFieldMessage(field: string): string {
    "Missing required field: " + field
  }

  /** `body[k]` for a body that is not null (on null every read throws). */
  function FieldOf(body: Json, k: string): Value
    requires body != Null
  {
    Prop(Some(body), k).value
  }

  /** The position of the first falsy required field at or after `from`; `|RequiredFields|` if none. */
  function FirstFalsy(body: Json, from: nat): (k: nat)
    requires body != Null && from <= |RequiredFields|
    ensures from <= k <= |RequiredFields|
    ensures forall j :: from <= j < k ==> Truthy(FieldOf(body, RequiredFields[j]))
    ensures k < |RequiredFields| ==> !Truthy(FieldOf(body, RequiredFields[k]))
    decreases |RequiredFields| - from
  {
    if from == |RequiredFields| then from
    else if !Truthy(FieldOf(body, RequiredFields[from])) then from
    else FirstFalsy(body, from + 1)
  }

  /** Line 122: `body.address`, `body.address.locality` and `body.address.region` are all truthy. */
  predicate AddressPresent(body: Json)
    requires body != Null
  {
    var address := FieldOf(body, "address");
    Truthy(address) && Truthy(OptProp(address, "locality")) && Truthy(OptProp(address, "region"))
  }

  /** Line 126: `body.location`, its `latitude` and its `longitude` are all truthy. */
  predicate LocationPresent(body: Json)
    requires body != Null
  {
    var location := FieldOf(body, "location");
    Truthy(location) && Truthy(OptProp(location, "latitude")) && Truthy(OptProp(location, "longitude"))
  }

  /** Lines 114-128: the message of the first check that fails, if any. */
  function Validation(body: Json): Option<string>
    requires body != Null
  {
    var k := FirstFalsy(body, 0);
    if k < |RequiredFields| then Some(MissingFieldMessage(RequiredFields[k]))
    else if !AddressPresent(body) then Some(AddressError)
    else if !LocationPresent(body) then Some(LocationError)
    else None
  }

  /**
   * Lines 149-172: the row built from `doctor`. `None` when building it throws:
   * `doctor`, `doctor.address` or `doctor.location` is undefined or null.
   */
  function RecordFrom(doctor: Value): (r: Option<NewDoctor>)
    ensures r.Some? <==>
      doctor != None && doctor != Some(Null)
      && Prop(OptProp(doctor, "address"), "locality").Some?
      && Prop(OptProp(doctor, "location"), "latitude").Some?
    ensures r.Some? ==> r.value.name == OptProp(doctor, "name") && r.value.url == OptProp(doctor, "url")
    ensures r.Some? ==> r.value.specialization == OptProp(doctor, "specialization") && r.value.description == OptProp(doctor, "description")
    ensures r.Some? ==> r.value.priceRange == OptProp(doctor, "priceRange") && r.value.image == OptProp(doctor, "image")
    ensures r.Some? && OptProp(doctor, "rating").Some? && OptProp(doctor, "rating").value != Null ==> r.value.rating == OptProp(doctor, "rating").value
    ensures r.Some? && OptProp(doctor, "rating") == Some(Null) ==> r.value.rating == Null
    ensures r.Some? && OptProp(doctor, "rating") == None ==> r.value.rating == Null
    ensures r.Some? && OptProp(doctor, "rating") == Some(Number(0.0)) ==> r.value.rating == Number(0.0)
    ensures r.Some? && !Truthy(OptProp(OptProp(doctor, "address"), "locality")) ==> r.value.address.locality == Str("")
    ensures r.Some? && !Truthy(OptProp(OptProp(doctor, "address"), "region")) ==> r.value.address.region == Str("")
    ensures r.Some? && !Truthy(OptProp(OptProp(doctor, "location"), "latitude")) ==> r.value.location.latitude == Str("")
    ensures r.Some? && !Truthy(OptProp(OptProp(doctor, "location"), "longitude")) ==> r.value.location.longitude == Str("")
    ensures r.Some? && Truthy(OptProp(OptProp(doctor, "address"), "locality")) ==> Some(r.value.address.locality) == OptProp(OptProp(doctor, "address"), "locality")
    ensures r.Some? && Truthy(OptProp(OptProp(doctor, "address"), "region")) ==> Some(r.value.address.region) == OptProp(OptProp(doctor, "address"), "region")
    ensures r.Some? && Truthy(OptProp(OptProp(doctor, "location"), "latitude")) ==> Some(r.value.location.latitude) == OptProp(OptProp(doctor, "location"), "latitude")
    ensures r.Some? && Truthy(OptProp(OptProp(doctor, "location"), "longitude")) ==> Some(r.value.location.longitude) == OptProp(OptProp(doctor, "location"), "longitude")
  {
    if doctor == None || doctor == Some(Null) then None
    else
      var address := OptProp(doctor, "address");
      var location := OptProp(doctor, "location");
      if address == None || address == Some(Null) || location == None || location == Some(Null) then None
      else
        Some(NewDoctor(
          OptProp(doctor, "name"),
          OptProp(doctor, "specialization"),
          OptProp(doctor, "description"),
          OptProp(doctor, "priceRange"),
          OptProp(doctor, "image"),
          OptProp(doctor, "url"),
          Coalesce(OptProp(doctor, "rating"), Null),
          NewAddress(Or(OptProp(address, "locality"), Str("")), Or(OptProp(address, "region"), Str(""))),
          NewLocation(Or(OptProp(location, "latitude"), Str("")), Or(OptProp(location, "longitude"), Str("")))))
  }

  /** Lines 109-183, the handler as written: validate `body`, then insert a row built from `body.data`. */
  function Respond(request: RequestBody, storeAccepts: NewDoctor -> bool): Response {
    match request
    case Unparseable => ServerError
    case Parsed(body) =>
      if body == Null then ServerError
      else
        match Validation(body)
        case Some(message) => Response(400, Failure(message))
        case None =>
          match RecordFrom(FieldOf(body, "data"))
          case None => ServerError
          case Some(record) =>
            if storeAccepts(record) then Response(201, Added("Doctor added successfully", record)) else ServerError
  }

  /** `POST(request)`: the loop over the required fields returns at the first falsy one. */
  method Post(request: RequestBody, storeAccepts: NewDoctor -> bool) returns (resp: Response)
    ensures resp == Respond(request, storeAccepts)
  {
    if request.Unparseable? {
      return ServerError;
    }
    var body := request.json;
    if body == Null {
      // `body[field]` throws a TypeError, which the catch turns into a 500.
      return ServerError;
    }
    var i := 0;
    while i < |RequiredFields|
      invariant 0 <= i <= |RequiredFields|
      invariant FirstFalsy(body, 0) == FirstFalsy(body, i)
    {
      var field := RequiredFields[i];
      if !Truthy(FieldOf(body, field)) {
        return Response(400, Failure(MissingFieldMessage(field)));
      }
      i := i + 1;
    }
    if !AddressPresent(body) {
      return Response(400, Failure(AddressError));
    }
    if !LocationPresent(body) {
      return Response(400, Failure(LocationError));
    }
    var record := RecordFrom(FieldOf(body, "data"));
    if record.None? || !storeAccepts(record.value) {
      return ServerError;
    }
    resp := Response(201, Added("Doctor added successfully", record.value));
  }

  // ---------------------------------------------------------------- order of the checks

  lemma MissingMessagesDistinct(i: nat, k: nat)
    requires i < |RequiredFields| && k < |RequiredFields|
    ensures MissingFieldMessage(RequiredFields[i]) == MissingFieldMessage(RequiredFields[k]) <==> i == k
    ensures MissingFieldMessage(RequiredFields[i]) != AddressError
    ensures MissingFieldMessage(RequiredFields[i]) != LocationError
  {
    var prefix := "Missing required field: ";
    if MissingFieldMessage(RequiredFields[i]) == MissingFieldMessage(RequiredFields[k]) {
      assert RequiredFields[i] == MissingFieldMessage(RequiredFields[i])[|prefix|..];
      assert RequiredFields[k] == MissingFieldMessage(RequiredFields[k])[|prefix|..];
    }
    assert MissingFieldMessage(RequiredFields[i])[8] == 'r';
    assert AddressError[8] == 'o' && LocationError[8] == 'o';
  }

  /** The message names field `i` exactly when it is the first falsy required field. */
  lemma FirstFalsyFieldReported(body: Json, i: nat)
    requires body != Null && i < |RequiredFields|
    ensures Validation(body) == Some(MissingFieldMessage(RequiredFields[i])) <==>
      !Truthy(FieldOf(body, RequiredFields[i])) && forall k :: 0 <= k < i ==> Truthy(FieldOf(body, RequiredFields[k]))
  {
    var k := FirstFalsy(body, 0);
    MissingMessagesDistinct(i, if k < |RequiredFields| then k else i);
  }

  /** The address is judged only once every required field is present. */
  lemma AddressCheckedAfterFields(body: Json)
    requires body != Null
    ensures Validation(body) == Some(AddressError) <==>
      (forall k :: 0 <= k < |RequiredFields| ==> Truthy(FieldOf(body, RequiredFields[k]))) && !AddressPresent(body)
  {
    var k := FirstFalsy(body, 0);
    if k < |RequiredFields| {
      MissingMessagesDistinct(k, k);
    }
  }

  /** The location is judged only once the fields and the address are present. */
  lemma LocationCheckedLast(body: Json)
    requires body != Null
    ensures Validation(body) == Some(LocationError) <==>
      (forall k :: 0 <= k < |RequiredFields| ==> Truthy(FieldOf(body, RequiredFields[k])))
      && AddressPresent(body) && !LocationPresent(body)
  {
    var k := FirstFalsy(body, 0);
    if k < |RequiredFields| {
      MissingMessagesDistinct(k, k);
    }
    assert AddressError != LocationError by {
      assert AddressError[19] == 'a' && LocationError[19] == 'l';
    }
  }

  /** A body whose six required fields are all truthy passes the field loop. */
  lemma RequiredFieldsPass(body: Json)
    requires body != Null
    requires Truthy(FieldOf(body, "name")) && Truthy(FieldOf(body, "specialization"))
    requires Truthy(FieldOf(body, "description")) && Truthy(FieldOf(body, "priceRange"))
    requires Truthy(FieldOf(body, "image")) && Truthy(FieldOf(body, "url"))
    ensures FirstFalsy(body, 0) == |RequiredFields|
  {
  }

  /** A price of 0 counts as missing: the check reads it as falsy. */
  lemma ZeroPriceIsMissing(fields: map<string, Json>)
    requires forall k :: 0 <= k < 3 ==> Truthy(FieldOf(Obj(fields), RequiredFields[k]))
    requires "priceRange" in fields && fields["priceRange"] == Number(0.0)
    ensures Validation(Obj(fields)) == Some(MissingFieldMessage("priceRange"))
  {
    FirstFalsyFieldReported(Obj(fields), 3);
  }

  // ---------------------------------------------------------------- the record

  /** A body that passes every check but carries no `data` object is answered with a 500. */
  lemma ValidatedBodyWithoutDataFails(body: Json, storeAccepts: NewDoctor -> bool)
    requires body != Null && Validation(body) == None
    requires FieldOf(body, "data") == None || FieldOf(body, "data") == Some(Null)
    ensures Respond(Parsed(body), storeAccepts) == ServerError
  {
  }

  /** Building the row from the body itself, as evidently intended. */
  function RespondFromBody(request: RequestBody, storeAccepts: NewDoctor -> bool): Response {
    match request
    case Unparseable => ServerError
    case Parsed(body) =>
      if body == Null then ServerError
      else
        match Validation(body)
        case Some(message) => Response(400, Failure(message))
        case None =>
          match RecordFrom(Some(body))
          case None => ServerError
          case Some(record) =>
            if storeAccepts(record) then Response(201, Added("Doctor added successfully", record)) else ServerError
  }

  /**
   * With the row built from the body, every body that passes the checks yields a
   * row carrying the checked fields, created whenever the store accepts it.
   */
  lemma ValidatedBodyIsStored(body: Json, storeAccepts: NewDoctor -> bool)
    requires body != Null && Validation(body) == None
    ensures RecordFrom(Some(body)).Some?
    ensures var record := RecordFrom(Some(body)).value;
      && record.name == FieldOf(body, "name")
      && record.priceRange == FieldOf(body, "priceRange")
      && Some(record.address.locality) == OptProp(FieldOf(body, "address"), "locality")
      && Some(record.location.latitude) == OptProp(FieldOf(body, "location"), "latitude")
      && RespondFromBody(Parsed(body), storeAccepts)
         == if storeAccepts(record) then Response(201, Added("Doctor added successfully", record)) else ServerError
  {
    assert FirstFalsy(body, 0) == |RequiredFields|;
    assert AddressPresent(body) && LocationPresent(body);
  }
}
