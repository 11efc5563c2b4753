/**
  The request handlers of app/main.py as pure functions from a store to a
  (store, response) exchange. Validation of the create body happens here, at
  the boundary; the store itself accepts anything.
 */
module Api {
  import opened Wrappers
  import Inventory
  import Schemas

  /** The payload of each kind of answer the service gives. */
  datatype Response =
    | Welcome(message: string, endpoints: seq<(string, string)>)
    | Health(status: string, totalParts: nat, service: string, version: string)
    | Listing(total: nat, parts: seq<Schemas.PartResponse>)
    | Found(stored: Inventory.Part)
    | Created(record: Schemas.PartResponse)
    | NotFound(partId: int)
    | Unprocessable(errors: seq<Schemas.FieldError>)

  /** The HTTP status that goes with a response. */
  function StatusCode(r: Response): int {
    match r
    case NotFound(_) => 404
    case Unprocessable(_) => 422
    case _ => 200
  }

  /** The store after a request, and the answer to it. */
  datatype Exchange = Exchange(garage: Inventory.Garage, response: Response)

  /** The four-field record a handler builds from a stored part. */
  function Record(p: Inventory.Part): Schemas.PartResponse {
    Schemas.PartResponse(p.id, p.name, p.partNumber, p.quantity)
  }

  /** The three parts added when the service starts. */
  function Startup(): (g: Inventory.Garage)
    ensures Inventory.Valid(g)
    ensures |g.parts| == 3
    ensures g.parts[0] == Inventory.Part(1, "Масляный фильтр", "OC 90", 5)
    ensures g.parts[1] == Inventory.Part(2, "Воздушный фильтр", "AF 123", 3)
    ensures g.parts[2] == Inventory.Part(3, "Свеча зажигания", "SP 456", 10)
  {
    var g0 := Inventory.NewGarage();
    var g1 := Inventory.AddPart(g0, "Масляный фильтр", "OC 90", 5).garage;
    var g2 := Inventory.AddPart(g1, "Воздушный фильтр", "AF 123", 3).garage;
    Inventory.AddPart(g2, "Свеча зажигания", "SP 456", 10).garage
  }

  /** The seeded part numbers do not have the `ABC-123` form: the store does not validate. */
  lemma SeedBypassesValidation()
    ensures forall i | 0 <= i < |Startup().parts| :: !Schemas.ValidPartNumber(Startup().parts[i].partNumber)
  {
  }

  /**
    POST /parts/ with an already validated body: add the part, then answer
    with the last element of the list.
   */
  function CreatePart(g: Inventory.Garage, part: Schemas.PartCreate): (x: Exchange)
    ensures |x.garage.parts| == |g.parts| + 1
    ensures x.garage.parts[..|g.parts|] == g.parts
    ensures x.response.Created?
    ensures x.response.record == Record(x.garage.parts[|g.parts|])
    ensures x.response.record
      == Schemas.PartResponse(g.nextId, part.name, part.partNumber, part.quantity)
    ensures Inventory.Valid(g) ==> Inventory.Valid(x.garage) && x.response.record.id == |g.parts| + 1
    ensures Schemas.ValidFields(part.name, part.partNumber, part.quantity) ==>
      Schemas.ValidResponse(x.response.record)
  {
    var added := Inventory.AddPart(g, part.name, part.partNumber, part.quantity);
    var parts := added.garage.parts;
    Exchange(added.garage, Created(Record(parts[|parts| - 1])))
  }

  /** POST /parts/ as the client sends it: validate, then create or refuse with 422. */
  function PostPart(g: Inventory.Garage, body: Schemas.CreateBody): (x: Exchange)
    ensures StatusCode(x.response) == 422 <==> Schemas.Validate(body).Failure?
    ensures Inventory.Valid(g) ==> Inventory.Valid(x.garage)
    ensures StatusCode(x.response) == 422 ==>
      x.garage == g && x.response == Unprocessable(Schemas.Validate(body).error)
    ensures StatusCode(x.response) != 422 ==>
      && x.response.Created?
      && Schemas.ValidResponse(x.response.record)
      && |x.garage.parts| == |g.parts| + 1
      && x.garage.parts[..|g.parts|] == g.parts
      && x.response.record == Record(x.garage.parts[|g.parts|])
      && x.response.record == Schemas.PartResponse(g.nextId, body.name.value, body.partNumber.value,
           body.quantity.GetOr(Schemas.DefaultQuantity))
  {
    match Schemas.Validate(body)
    case Failure(errs) => Exchange(g, Unprocessable(errs))
    case Success(part) => CreatePart(g, part)
  }

  /** GET /: a fixed greeting and the map of endpoints. */
  function ReadRoot(g: Inventory.Garage): (x: Exchange)
    ensures x.garage == g
    ensures StatusCode(x.response) == 200 && x.response.Welcome?
  {
    Exchange(g, Welcome("Garage API работает!",
      [("parts_list", "/parts"), ("health_check", "/health"), ("docs", "/docs")]))
  }

  /** GET /health: the number of stored parts and fixed service facts. */
  function HealthCheck(g: Inventory.Garage): (x: Exchange)
    ensures x.garage == g
    ensures x.response.Health? && x.response.totalParts == |g.parts|
    ensures StatusCode(x.response) == 200
  {
    Exchange(g, Health("OK", |Inventory.ListParts(g)|, "garage-api", "0.1.0"))
  }

  /** The loop of `list_parts`: one record per part, in order. */
  function Records(parts: seq<Inventory.Part>): (rs: seq<Schemas.PartResponse>)
    ensures |rs| == |parts|
    ensures forall i | 0 <= i < |parts| ::
      rs[i].id == parts[i].id && rs[i].name == parts[i].name
      && rs[i].partNumber == parts[i].partNumber && rs[i].quantity == parts[i].quantity
  {
    if |parts| == 0 then [] else [Record(parts[0])] + Records(parts[1..])
  }

  /** GET /parts: the count and every stored part's four fields, in store order. */
  function ListParts(g: Inventory.Garage): (x: Exchange)
    ensures x.garage == g
    ensures x.response.Listing?
    ensures x.response.total == |g.parts| == |x.response.parts|
    ensures forall i | 0 <= i < |g.parts| :: x.response.parts[i] == Record(g.parts[i])
    ensures StatusCode(x.response) == 200
  {
    var rs := Records(Inventory.ListParts(g));
    Exchange(g, Listing(|rs|, rs))
  }

  /** GET /parts/{id}: the first stored part with that id, or 404. */
  function GetPart(g: Inventory.Garage, partId: int): (x: Exchange)
    ensures x.garage == g
    ensures x.response.Found? <==> exists i | 0 <= i < |g.parts| :: g.parts[i].id == partId
    ensures x.response.Found? ==> x.response.stored.id == partId && x.response.stored in g.parts
    ensures !x.response.Found? ==> x.response == NotFound(partId) && StatusCode(x.response) == 404
  {
    match Inventory.Find(g.parts, partId)
    case Some(p) => Exchange(g, Found(p))
    case None => Exchange(g, NotFound(partId))
  }

  /**
    Round trip: the part answered by a create, fetched by its own id, comes
    back with the same four fields, and the lookup leaves the store alone.
   */
  lemma CreateThenGet(g: Inventory.Garage, part: Schemas.PartCreate)
    requires Inventory.Valid(g)
    ensures var c := CreatePart(g, part);
      var r := GetPart(c.garage, c.response.record.id);
      && r.garage == c.garage
      && r.response.Found?
      && Record(r.response.stored) == c.response.record
  {
  }

  /** On a valid store, GET /parts/{id} answers 200 exactly for the ids 1..n. */
  lemma GetPartInValid(g: Inventory.Garage, partId: int)
    requires Inventory.Valid(g)
    ensures StatusCode(GetPart(g, partId).response) == 200 <==> 1 <= partId <= |g.parts|
    ensures 1 <= partId <= |g.parts| ==> GetPart(g, partId).response == Found(g.parts[partId - 1])
  {
    Inventory.FindInValid(g, partId);
  }

  /** On the seeded store ids 1 and 2 are the first two seeded parts and id 999 is not found. */
  lemma SeededLookups()
    ensures GetPart(Startup(), 1).response == Found(Inventory.Part(1, "Масляный фильтр", "OC 90", 5))
    ensures GetPart(Startup(), 2).response == Found(Inventory.Part(2, "Воздушный фильтр", "AF 123", 3))
    ensures GetPart(Startup(), 999).response == NotFound(999)
    ensures StatusCode(GetPart(Startup(), 999).response) == 404
  {
  }

  /**
    Two accepted creates on a valid store get the next two ids, and the
    listing then ends with the two created records, in that order.
   */
  lemma TwoPostsThenList(g: Inventory.Garage, b1: Schemas.CreateBody, b2: Schemas.CreateBody)
    requires Inventory.Valid(g)
    requires Schemas.Validate(b1).Success? && Schemas.Validate(b2).Success?
    ensures var c1 := PostPart(g, b1);
      var c2 := PostPart(c1.garage, b2);
      var l := ListParts(c2.garage).response;
      && c1.response.Created? && c1.response.record.id == |g.parts| + 1
      && c2.response.Created? && c2.response.record.id == |g.parts| + 2
      && l.total == |g.parts| + 2
      && l.parts[..|g.parts|] == Records(g.parts)
      && l.parts[|g.parts|..] == [c1.response.record, c2.response.record]
  {
    var c1 := PostPart(g, b1);
    var c2 := PostPart(c1.garage, b2);
    var l := ListParts(c2.garage).response;
    var n := |g.parts|;
    assert c2.garage.parts[n] == c1.garage.parts[n] by {
      assert c2.garage.parts[..n + 1] == c1.garage.parts;
    }
    assert l.parts[n..] == [l.parts[n], l.parts[n + 1]];
    var rs := Records(g.parts);
    forall i | 0 <= i < n
      ensures l.parts[..n][i] == rs[i]
    {
      assert c2.garage.parts[i] == c2.garage.parts[..n][i];
      assert c2.garage.parts[..n] == c1.garage.parts[..n];
      assert c1.garage.parts[..n][i] == g.parts[i];
    }
  }

  /**
    The two creates of the API test script, sent to the seeded store, get
    ids 4 and 5, and the listing then shows five parts.
   */
  lemma SeededCreatesThenList()
    ensures var c1 := PostPart(Startup(), TestBrakePads());
      var c2 := PostPart(c1.garage, TestOilFilter());
      && c1.response == Created(Schemas.PartResponse(4, "Тормозные колодки", "BRK-001", 4))
      && c2.response == Created(Schemas.PartResponse(5, "Масляный фильтр", "OIL-001", 10))
      && ListParts(c2.garage).response.total == 5
  {
    Schemas.WellFormedCreatesAccepted();
    TwoPostsThenList(Startup(), TestBrakePads(), TestOilFilter());
  }

  function TestBrakePads(): Schemas.CreateBody {
    Schemas.CreateBody(Some("Тормозные колодки"), Some("BRK-001"), Some(4))
  }

  function TestOilFilter(): Schemas.CreateBody {
    Schemas.CreateBody(Some("Масляный фильтр"), Some("OIL-001"), Some(10))
  }

  /** Part numbers with a hyphen in the third position are refused with 422. */
  lemma HyphenatedSeedNumbersRefused(g: Inventory.Garage)
    ensures StatusCode(PostPart(g, Schemas.CreateBody(Some("Oil Filter"), Some("OC-090"), Some(5))).response) == 422
    ensures StatusCode(PostPart(g, Schemas.CreateBody(Some("Air Filter"), Some("AF-123"), Some(3))).response) == 422
  {
    assert !Schemas.IsAsciiUpper("OC-090"[2]);
    assert !Schemas.IsAsciiUpper("AF-123"[2]);
  }

  /** The routes of the service. */
  datatype Request =
    | GetRoot
    | GetHealth
    | GetParts
    | GetPartById(partId: int)
    | PostParts(body: Schemas.CreateBody)

  /** Dispatch a request to its handler. */
  function Handle(g: Inventory.Garage, req: Request): (x: Exchange)
    ensures !req.PostParts? ==> x.garage == g
  {
    match req
    case GetRoot => ReadRoot(g)
    case GetHealth => HealthCheck(g)
    case GetParts => ListParts(g)
    case GetPartById(k) => GetPart(g, k)
    case PostParts(body) => PostPart(g, body)
  }

  /** The store after serving `reqs` in order. */
  function Serve(g: Inventory.Garage, reqs: seq<Request>): Inventory.Garage
  {
    if |reqs| == 0 then g
    else Handle(Serve(g, reqs[..|reqs| - 1]), reqs[|reqs| - 1]).garage
  }

  /**
    One request keeps the store valid, keeps every part it had, and adds at
    most one part, which passed validation.
   */
  lemma HandleKeepsStore(g: Inventory.Garage, req: Request)
    requires Inventory.Valid(g)
    ensures var h := Handle(g, req).garage;
      && Inventory.Valid(h)
      && |g.parts| <= |h.parts| <= |g.parts| + 1
      && h.parts[..|g.parts|] == g.parts
      && forall i | |g.parts| <= i < |h.parts| ::
           Schemas.ValidFields(h.parts[i].name, h.parts[i].partNumber, h.parts[i].quantity)
  {
    var x := Handle(g, req);
    if req.PostParts? && StatusCode(x.response) != 422 {
      var part := Schemas.Validate(req.body).value;
      assert x == CreatePart(g, part);
    }
  }

  /**
    Whatever requests are served, the store keeps its invariant, never loses
    or changes a part, and every part added after `g` passed validation:
    validation holds of the parts that came in through POST, not of the store.
   */
  lemma {:induction false} ServePreservesStore(g: Inventory.Garage, reqs: seq<Request>)
    requires Inventory.Valid(g)
    ensures Inventory.Valid(Serve(g, reqs))
    ensures |Serve(g, reqs).parts| >= |g.parts|
    ensures Serve(g, reqs).parts[..|g.parts|] == g.parts
    ensures forall i | |g.parts| <= i < |Serve(g, reqs).parts| ::
      var p := Serve(g, reqs).parts[i];
      Schemas.ValidFields(p.name, p.partNumber, p.quantity)
  {
    if |reqs| > 0 {
      var init := reqs[..|reqs| - 1];
      ServePreservesStore(g, init);
      var h := Serve(g, init);
      HandleKeepsStore(h, reqs[|reqs| - 1]);
      var h' := Serve(g, reqs);
      assert h' == Handle(h, reqs[|reqs| - 1]).garage;
      assert h'.parts[..|g.parts|] == h'.parts[..|h.parts|][..|g.parts|];
      forall i | |g.parts| <= i < |h'.parts|
        ensures Schemas.ValidFields(h'.parts[i].name, h'.parts[i].partNumber, h'.parts[i].quantity)
      {
        if i < |h.parts| {
          assert h'.parts[i] == h'.parts[..|h.parts|][i];
        }
      }
    }
  }
}
