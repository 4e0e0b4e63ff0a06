/** The mock API server used to exercise the contact form locally: routing, the validation
    of `POST /api/contact`, and the shapes of the replies. The clock is an input (the
    timestamp string), and the artificial delay before the success reply is not modelled. */
module MockContact {
  import opened Wrappers
  import opened Text
  import opened EmailPattern
  import Contact

  /** The HTTP methods the routes distinguish. `HEAD` is answered by `GET` routes. */
  datatype Verb = Get | Head | Post | OtherVerb

  /** The JSON body fields the handler destructures. `None` stands for a missing key or
      `null`; values of other JSON types are not modelled. */
  datatype Body = Body(name: Option<string>, email: Option<string>, company: Option<string>, message: Option<string>)

  /** What the JSON body parser produced: an object, or a syntax error it passes on to the
      error handler. */
  datatype Parsed = Object(body: Body) | SyntaxError

  datatype Request = Request(verb: Verb, path: string, parsed: Parsed)

  /** The JSON replies: `{ok:false, error}`, `{ok:true, message, timestamp}` and the health
      report `{status:'ok', timestamp}`. */
  datatype Payload =
    | Failure(error: string)
    | Success(message: string, timestamp: string)
    | HealthReport(timestamp: string)

  datatype Response = Response(status: int, payload: Payload)

  const MissingFields: string := "Missing required fields: name, email, and message are required."
  const InvalidEmail: string := "Invalid email address."
  const ThankYou: string := "Thank you for your message! We will get back to you soon."
  const NotFound: string := "Endpoint not found"
  const ServerError: string := "Internal server error"

  const ContactRoute: string := "/api/contact"
  const HealthRoute: string := "/health"

  /** JavaScript truthiness of a string field: present and non-empty. */
  predicate Truthy(v: Option<string>)
  {
    v.Some? && v.value != ""
  }

  function LowerAll(s: string): (r: string)
    ensures |r| == |s| && forall k :: 0 <= k < |s| ==> r[k] == LowerAscii(s[k])
  {
    seq(|s|, k requires 0 <= k < |s| => LowerAscii(s[k]))
  }

  /** A route matches the way the router does by default: ignoring ASCII case and allowing
      one trailing slash. */
  predicate RouteMatches(path: string, route: string)
  {
    LowerAll(path) == route || LowerAll(path) == route + "/"
  }

  /** The `POST /api/contact` handler on a parsed body: the presence check on `name`,
      `email` and `message` comes first, then the e-mail pattern on the raw, untrimmed
      address; only a body passing both is thanked. */
  function Submit(b: Body, now: string): (r: Response)
    ensures r.status == 200 || r.status == 400
    ensures r.status == 200 <==> r.payload.Success?
    ensures !(Truthy(b.name) && Truthy(b.email) && Truthy(b.message)) ==> r == Response(400, Failure(MissingFields))
    ensures Truthy(b.name) && Truthy(b.email) && Truthy(b.message) ==>
      (r.status == 200 <==> MatchesPattern(b.email.value))
    ensures Truthy(b.name) && Truthy(b.email) && Truthy(b.message) && !MatchesPattern(b.email.value) ==>
      r == Response(400, Failure(InvalidEmail))
    ensures r.status == 400 ==> r.payload.Failure? && (r.payload.error == MissingFields || r.payload.error == InvalidEmail)
    ensures r.status == 200 ==> r.payload == Success(ThankYou, now)
  {
    IsEmailMatchesPattern(if b.email.Some? then b.email.value else "");
    if !Truthy(b.name) || !Truthy(b.email) || !Truthy(b.message) then
      Response(400, Failure(MissingFields))
    else if !IsEmail(b.email.value) then
      Response(400, Failure(InvalidEmail))
    else
      Response(200, Success(ThankYou, now))
  }

  /** The whole server: a body that is not valid JSON is answered 500 by the error
      handler whatever the route; then the two routes; everything else falls through to
      the 404 handler. */
  function Serve(req: Request, now: string): (r: Response)
    ensures req.parsed.SyntaxError? ==> r == Response(500, Failure(ServerError))
    ensures req.parsed.Object? && req.verb == Post && RouteMatches(req.path, ContactRoute) ==>
      r == Submit(req.parsed.body, now)
    ensures req.parsed.Object? && (req.verb == Get || req.verb == Head) && RouteMatches(req.path, HealthRoute) ==>
      r == Response(200, HealthReport(now))
    ensures req.parsed.Object? && r.status == 404 <==>
      req.parsed.Object?
      && !(req.verb == Post && RouteMatches(req.path, ContactRoute))
      && !((req.verb == Get || req.verb == Head) && RouteMatches(req.path, HealthRoute))
    ensures r.status == 404 ==> r.payload == Failure(NotFound)
  {
    if req.parsed.SyntaxError? then Response(500, Failure(ServerError))
    else if req.verb == Post && RouteMatches(req.path, ContactRoute) then Submit(req.parsed.body, now)
    else if (req.verb == Get || req.verb == Head) && RouteMatches(req.path, HealthRoute) then Response(200, HealthReport(now))
    else Response(404, Failure(NotFound))
  }

  /** `company` is never looked at: any value, or none, gives the same reply. */
  lemma CompanyNeverRequired(b: Body, company: Option<string>, now: string)
    ensures Submit(b.(company := company), now) == Submit(b, now)
  {}

  /** The presence check wins over the e-mail check: a body missing a field is told so even
      when its address is malformed too. */
  lemma PresenceBeforeEmail(b: Body, now: string)
    requires !Truthy(b.name) || !Truthy(b.message)
    ensures Submit(b, now).payload == Failure(MissingFields)
  {}

  /** Only GET (or HEAD) reaches the health route and only POST the contact route: a GET of
      the contact route is a 404. */
  lemma WrongVerbIsNotFound(b: Body, now: string)
    ensures Serve(Request(Get, ContactRoute, Object(b)), now) == Response(404, Failure(NotFound))
    ensures Serve(Request(Post, HealthRoute, Object(b)), now) == Response(404, Failure(NotFound))
  {
    assert LowerAll(ContactRoute) == ContactRoute;
    assert LowerAll(HealthRoute) == HealthRoute;
    assert ContactRoute[1] != HealthRoute[1];
  }

  /** A short well-formed address, used by the examples below. */
  lemma SampleAddressIsEmail()
    ensures IsEmail("a@b.co")
  {
    assert SplitsAt("a@b.co", 1, 3) by {
      assert "a@b.co"[..1] == "a";
      assert "a@b.co"[2..3] == "b";
      assert "a@b.co"[4..] == "co";
    }
    IsEmailMatchesPattern("a@b.co");
  }

  /** The server trims nothing and has no length rule: a name of blanks and a two-letter
      message are accepted. */
  lemma ServerIsLax(now: string)
    ensures Submit(Body(Some(" "), Some("a@b.co"), None, Some("hi")), now).status == 200
  {
    SampleAddressIsEmail();
  }

  /** The value of the last pair with key `key`, as `Object.fromEntries` keeps it. */
  function Lookup(data: seq<(string, string)>, key: string): (v: Option<string>)
    ensures v.Some? <==> exists k :: 0 <= k < |data| && data[k].0 == key
    ensures v.Some? ==> exists k :: (0 <= k < |data| && data[k] == (key, v.value)
      && forall j :: k < j < |data| ==> data[j].0 != key)
  {
    if |data| == 0 then None
    else if data[|data| - 1].0 == key then Some(data[|data| - 1].1)
    else
      var init := data[..|data| - 1];
      var v := Lookup(init, key);
      assert forall k :: 0 <= k < |data| - 1 ==> init[k] == data[k];
      if v.Some? then
        ghost var k :| 0 <= k < |init| && init[k] == (key, v.value)
          && forall j :: k < j < |init| ==> init[j].0 != key;
        assert data[k] == (key, v.value);
        v
      else v
  }

  /** A key that occurs once is looked up to its own value. */
  lemma {:induction false} LookupUnique(data: seq<(string, string)>, key: string, k: int)
    requires 0 <= k < |data| && data[k].0 == key
    requires forall j :: 0 <= j < |data| && j != k ==> data[j].0 != key
    ensures Lookup(data, key) == Some(data[k].1)
    decreases |data|
  {
    if k < |data| - 1 {
      var init := data[..|data| - 1];
      assert init[k] == data[k];
      LookupUnique(init, key, k);
    }
  }

  /** The body the client's `JSON.stringify(Object.fromEntries(formData))` arrives as. */
  function BodyOf(data: seq<(string, string)>): Body
  {
    Body(Lookup(data, "name"), Lookup(data, "email"), Lookup(data, "company"), Lookup(data, "message"))
  }

  /** The contact form's required controls, with the values given. */
  function Form(name: string, email: string, message: string): seq<Contact.Input>
  {
    [Contact.Input("name", "text", name, true),
     Contact.Input("email", "email", email, true),
     Contact.Input("message", "textarea", message, true)]
  }

  /** The form arrives at the server as a body carrying its three values untouched and no
      company. */
  lemma FormArrivesRaw(name: string, email: string, message: string)
    ensures BodyOf(Contact.FormData(Form(name, email, message))) == Body(Some(name), Some(email), None, Some(message))
  {
    var data := Contact.FormData(Form(name, email, message));
    assert data == [("name", name), ("email", email), ("message", message)];
    assert "name"[0] != "email"[0] && "email"[0] != "message"[0] && "message"[0] != "name"[0];
    assert "company"[0] !in {"name"[0], "email"[0], "message"[0]};
    LookupUnique(data, "name", 0);
    LookupUnique(data, "email", 1);
    LookupUnique(data, "message", 2);
  }

  /** The browser hands an e-mail control's value over with no whitespace at either end
      (the value sanitization of `<input type=email>`). For such an address the form's
      check of the field and the server's check agree. */
  lemma AddressChecksAgree(email: string)
    requires |email| > 0 ==> !IsSpace(email[0]) && !IsSpace(email[|email| - 1])
    ensures Contact.ValidateField(Contact.Input("email", "email", email, true)).0 <==> MatchesPattern(email)
  {
    TrimUnique(email, email, 0);
    IsEmailMatchesPattern(email);
    assert |"email"| != |"message"|;
  }

  /** With such an address the server is never stricter than the form: a form whose three
      fields pass their checks is thanked. */
  lemma FormAcceptedServerAccepts(name: string, email: string, message: string, now: string)
    requires |email| > 0 ==> !IsSpace(email[0]) && !IsSpace(email[|email| - 1])
    ensures var f := Form(name, email, message);
      Contact.ValidateField(f[0]).0 && Contact.ValidateField(f[1]).0 && Contact.ValidateField(f[2]).0 ==>
      Submit(BodyOf(Contact.FormData(f)), now) == Response(200, Success(ThankYou, now))
  {
    FormArrivesRaw(name, email, message);
    AddressChecksAgree(email);
  }

  /** A blank name, or a message under ten characters, is stopped by the form although the
      server takes it. */
  lemma BlankNameAndShortMessagePassOnlyTheServer(now: string)
    ensures !Contact.ValidateField(Form(" ", "a@b.co", "Hello there")[0]).0
    ensures !Contact.ValidateField(Form("Ann", "a@b.co", "hi")[2]).0
    ensures Submit(BodyOf(Contact.FormData(Form(" ", "a@b.co", "hi"))), now).status == 200
  {
    TrimUnique(" ", "", 0);
    TrimUnique("hi", "hi", 0);
    ServerIsLax(now);
    FormArrivesRaw(" ", "a@b.co", "hi");
  }
}
