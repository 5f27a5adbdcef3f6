/**
  The part request and its parts (`part_request` module): the field lists
  they are written to Redis as, and the builders that gather them.

  The builders' setters take the value their `Source` looked up as a
  parameter; the lookups themselves are queries outside this model.
 */
module PartRequests {
  import opened Outcomes
  import opened RedisValues
  import Sources

  const VinRequired: string := "Vin has to be defined before decoding it"
  const RequestorNotRetrieved: string := "Requestor couldnt be retrieved"
  const RequestorMissing: string := "Requestor cannot be none"

  /** The vehicle a part is requested for; `year` holds both candidate model years. */
  datatype VehicleData = VehicleData(
    make: Option<string>,
    model: Option<string>,
    vin: Option<string>,
    year: Option<string>)
  {
    /** `get_redis_fields`: `make`, `model`, `year`, `vin`, in that order;
        a field that is not set panics in `unwrap`. */
    method GetRedisFields() returns (r: Outcome<seq<(string, string)>, string>)
      ensures r.Success? <==> make.Some? && model.Some? && year.Some? && vin.Some?
      ensures !r.Success? ==> r == Panic(UnwrapNone)
      ensures r.Success? ==>
                r.value == [("make", make.value), ("model", model.value), ("year", year.value), ("vin", vin.value)]
    {
      var fields: seq<(string, string)> := [];
      if make.None? { return Panic(UnwrapNone); }
      fields := fields + [("make", make.value)];
      if model.None? { return Panic(UnwrapNone); }
      fields := fields + [("model", model.value)];
      if year.None? { return Panic(UnwrapNone); }
      fields := fields + [("year", year.value)];
      if vin.None? { return Panic(UnwrapNone); }
      fields := fields + [("vin", vin.value)];
      return Success(fields);
    }
  }

  /** The free-text part of a request. */
  datatype RequestDetails = RequestDetails(description: Option<string>, attachedFiles: Option<string>)
  {
    /** `get_redis_fields`: `description` then `attached_files`; a field
        that is not set panics in `unwrap`. */
    method GetRedisFields() returns (r: Outcome<seq<(string, string)>, string>)
      ensures r.Success? <==> description.Some? && attachedFiles.Some?
      ensures !r.Success? ==> r == Panic(UnwrapNone)
      ensures r.Success? ==> r.value == [("description", description.value), ("attached_files", attachedFiles.value)]
    {
      var fields: seq<(string, string)> := [];
      if description.None? { return Panic(UnwrapNone); }
      fields := fields + [("description", description.value)];
      if attachedFiles.None? { return Panic(UnwrapNone); }
      fields := fields + [("attached_files", attachedFiles.value)];
      return Success(fields);
    }
  }

  /** `RequestDetails::new()`: nothing set yet. */
  function NewRequestDetails(): (d: RequestDetails)
    ensures d.description.None? && d.attachedFiles.None?
  {
    RequestDetails(None, None)
  }

  /** The user behind a request, as the user directory returns it (only its id is used). */
  datatype User = User(id: string)

  /** Who asked for the part. */
  datatype Requestor = Requestor(userId: string)
  {
    /** `get_redis_fields`: the single field `user_id`. */
    method GetRedisFields() returns (r: seq<(string, string)>)
      ensures r == [("user_id", userId)]
    {
      r := [];
      r := r + [("user_id", userId)];
    }
  }

  /** A part request; vehicle, requestor and details are attached later. */
  datatype PartRequest = PartRequest(
    id: string,
    origin: string,
    originReference: string,
    timestamp: string,
    vehicle: Option<VehicleData>,
    requestor: Option<Requestor>,
    details: Option<RequestDetails>)
  {
    /** `get_redis_list`: the request's own four fields. */
    function GetRedisList(): (r: seq<(string, string)>)
      ensures Names(r) == ["id", "origin", "origin_reference", "timestamp"]
    {
      [("id", id), ("origin", origin), ("origin_reference", originReference), ("timestamp", timestamp)]
    }
  }

  /** `PartRequest::new`: the four given fields, nothing attached. */
  function NewPartRequest(id: string, origin: string, originReference: string, timestamp: string): (p: PartRequest)
    ensures p.id == id && p.origin == origin && p.originReference == originReference && p.timestamp == timestamp
    ensures p.vehicle.None? && p.requestor.None? && p.details.None?
  {
    PartRequest(id, origin, originReference, timestamp, None, None, None)
  }

  /** Reading back the hash four distinct fields are written to gives each field. */
  lemma {:induction false} ReadBackFour(pairs: seq<(string, string)>)
    requires |pairs| == 4
    requires forall i, j :: 0 <= i < j < 4 ==> pairs[i].0 != pairs[j].0
    ensures forall i :: 0 <= i < 4 ==> pairs[i].0 in PairMap(Flatten(pairs)) && PairMap(Flatten(pairs))[pairs[i].0] == pairs[i].1
    ensures PairMap(Flatten(pairs)).Keys == {pairs[0].0, pairs[1].0, pairs[2].0, pairs[3].0}
  {
    PairMapFlatten(pairs);
    assert pairs[..1][..0] == [];
    assert ToMap(pairs[..1]) == map[pairs[0].0 := pairs[0].1];
    assert pairs[..2][..1] == pairs[..1];
    assert ToMap(pairs[..2]) == ToMap(pairs[..1])[pairs[1].0 := pairs[1].1];
    assert pairs[..3][..2] == pairs[..2];
    assert ToMap(pairs[..3]) == ToMap(pairs[..2])[pairs[2].0 := pairs[2].1];
    assert ToMap(pairs) == ToMap(pairs[..3])[pairs[3].0 := pairs[3].1];
  }

  /** `get_redis_list` names the fields `id`, `origin`, `origin_reference`,
      `timestamp` in that order, and reading the written hash back gives each
      field of the request and nothing else. */
  lemma GetRedisListReadBack(p: PartRequest)
    ensures Names(p.GetRedisList()) == ["id", "origin", "origin_reference", "timestamp"]
    ensures PairMap(Flatten(p.GetRedisList())) ==
              map["id" := p.id, "origin" := p.origin, "origin_reference" := p.originReference,
                  "timestamp" := p.timestamp]
  {
    ReadBackFour(p.GetRedisList());
  }

  /** The text `VehicleDataBuilder::year` stores: both years joined by a comma. */
  function YearField(years: (string, string)): string {
    years.0 + "," + years.1
  }

  /** The text up to the first comma and the text after it. */
  function SplitAtComma(s: string): (string, string)
    decreases |s|
  {
    if s == [] then ([], [])
    else if s[0] == ',' then ([], s[1..])
    else
      var (before, after) := SplitAtComma(s[1..]);
      ([s[0]] + before, after)
  }

  /** A decoded year field splits back into the two years it was made of. */
  lemma {:induction false} YearFieldSplits(first: string, second: string)
    requires Sources.IsDigits(first)
    ensures SplitAtComma(YearField((first, second))) == (first, second)
    decreases |first|
  {
    if first == [] {
      assert YearField((first, second)) == [','] + second;
    } else {
      assert YearField((first, second))[1..] == YearField((first[1..], second));
      YearFieldSplits(first[1..], second);
      assert [first[0]] + first[1..] == first;
    }
  }

  /** The builder of `VehicleData`, filled field by field. */
  class VehicleDataBuilder {
    var make: Option<string>
    var model: Option<string>
    var vin: Option<string>
    var year: Option<string>

    /** `VehicleDataBuilder::default()`: nothing set. */
    constructor Default()
      ensures make.None? && model.None? && vin.None? && year.None?
    {
      make, model, vin, year := None, None, None, None;
    }

    /** `build`: the collected fields. */
    function Build(): (v: VehicleData)
      reads this
      ensures v.make == make && v.model == model && v.vin == vin && v.year == year
    {
      VehicleData(make, model, vin, year)
    }

    /** `vin`: stores what the source found, set or not. */
    method Vin(found: Option<string>)
      modifies this
      ensures vin == found
      ensures make == old(make) && model == old(model) && year == old(year)
    {
      vin := found;
    }

    /** `make`: stores what the source found, set or not. */
    method Make(found: Option<string>)
      modifies this
      ensures make == found
      ensures model == old(model) && vin == old(vin) && year == old(year)
    {
      make := found;
    }

    /** `model`: stores what the source found, set or not. */
    method Model(found: Option<string>)
      modifies this
      ensures model == found
      ensures make == old(make) && vin == old(vin) && year == old(year)
    {
      model := found;
    }

    /** `year`: decodes the model years of the stored VIN and stores them as
        `"first,second"`; without a VIN, or with a VIN whose year cannot be
        decoded, it panics and stores nothing. */
    method Year() returns (r: Outcome<(), string>)
      modifies this
      ensures make == old(make) && model == old(model) && vin == old(vin)
      ensures vin.None? ==> r == Panic(VinRequired) && year == old(year)
      ensures vin.Some? && !Sources.DecodeYear(vin.value).Success? ==>
                r == Panic(Sources.DecodeYear(vin.value).message) && year == old(year)
      ensures vin.Some? && Sources.DecodeYear(vin.value).Success? ==>
                r == Success(()) && year == Some(YearField(Sources.DecodeYear(vin.value).value))
    {
      if vin.None? {
        return Panic(VinRequired);
      }
      var possibleYears := Sources.DecodeYear(vin.value);
      if !possibleYears.Success? {
        return Panic(possibleYears.message);
      }
      year := Some(YearField(possibleYears.value));
      return Success(());
    }
  }

  /** The builder of `Requestor`. */
  class RequestorBuilder {
    var requestor: Option<User>

    /** `RequestorBuilder::default()`: no requestor. */
    constructor Default()
      ensures requestor.None?
    {
      requestor := None;
    }

    /** `requestor`: stores the user the directory returned; a failed lookup panics. */
    method SetRequestor(lookup: Result<User, string>) returns (r: Outcome<(), string>)
      modifies this
      ensures lookup.Err? ==> r == Panic(RequestorNotRetrieved) && requestor == old(requestor)
      ensures lookup.Ok? ==> r == Success(()) && requestor == Some(lookup.value)
    {
      if lookup.Err? {
        return Panic(RequestorNotRetrieved);
      }
      requestor := Some(lookup.value);
      return Success(());
    }

    /** `build`: an error exactly when no requestor is set, otherwise the
        requestor with that user's id. */
    function Build(): (r: Result<Requestor, string>)
      reads this
      ensures r.Err? <==> requestor.None?
      ensures r.Err? ==> r.error == RequestorMissing
      ensures r.Ok? ==> r.value.userId == requestor.value.id
    {
      if requestor.None? then Err(RequestorMissing) else Ok(Requestor(requestor.value.id))
    }
  }

  /** The builder of `RequestDetails`. */
  class RequestDetailsBuilder {
    var description: Option<string>
    var attachedFiles: Option<string>

    /** `RequestDetailsBuilder::default()`: nothing set. */
    constructor Default()
      ensures description.None? && attachedFiles.None?
    {
      description, attachedFiles := None, None;
    }

    /** `description`: stores what the source found, set or not. */
    method Description(found: Option<string>)
      modifies this
      ensures description == found && attachedFiles == old(attachedFiles)
    {
      description := found;
    }

    /** `attached_files`: stores what the source found, set or not. */
    method AttachedFiles(found: Option<string>)
      modifies this
      ensures attachedFiles == found && description == old(description)
    {
      attachedFiles := found;
    }

    /** `build`: the collected fields. */
    function Build(): (d: RequestDetails)
      reads this
      ensures d.description == description && d.attachedFiles == attachedFiles
    {
      RequestDetails(description, attachedFiles)
    }
  }

  /** Writing the vehicle's fields and reading the hash back gives each field. */
  lemma VehicleFieldsReadBack(make: string, model: string, year: string, vin: string)
    ensures PairMap(Flatten([("make", make), ("model", model), ("year", year), ("vin", vin)])) ==
              map["make" := make, "model" := model, "year" := year, "vin" := vin]
  {
    ReadBackFour([("make", make), ("model", model), ("year", year), ("vin", vin)]);
  }

  /** Writing the details' fields and reading the hash back gives each field. */
  lemma DetailsFieldsReadBack(description: string, attachedFiles: string)
    ensures PairMap(Flatten([("description", description), ("attached_files", attachedFiles)])) ==
              map["description" := description, "attached_files" := attachedFiles]
  {
    var pairs := [("description", description), ("attached_files", attachedFiles)];
    PairMapFlatten(pairs);
    assert pairs[..1][..0] == [];
    assert ToMap(pairs[..1]) == map["description" := description];
  }

  /** Writing the requestor's field and reading the hash back gives it. */
  lemma RequestorFieldsReadBack(userId: string)
    ensures PairMap(Flatten([("user_id", userId)])) == map["user_id" := userId]
  {
    PairMapFlatten([("user_id", userId)]);
    assert [("user_id", userId)][..0] == [];
  }
}
