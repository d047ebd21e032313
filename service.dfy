/**
  The two endpoints of the admission service: `login`, which checks a
  username and password against the fixed table and issues a token, and
  `predict`, which turns the validated seven-field input into the one-row
  frame the regression model was fitted on and returns its first output.
  The model is a parameter; so are the token codec and the time.
 */
module Service {
  import opened Wrappers
  import opened Text
  import opened Json
  import opened Jwt
  import opened JwtMiddleware

  // ---------------------------------------------------------------------
  // Input

  /** `InputModel`: the seven required fields. Python floats are reals. */
  datatype InputModel = InputModel(
    greScore: int,
    toeflScore: int,
    universityRating: int,
    sop: real,
    lor: real,
    cgpa: real,
    research: int)

  datatype FieldKind = IntField | FloatField
  datatype FieldSpec = FieldSpec(name: string, kind: FieldKind)

  /** The declared fields of `InputModel`, in declaration order. */
  const InputFields: seq<FieldSpec> := [
    FieldSpec("gre_score", IntField),
    FieldSpec("toefl_score", IntField),
    FieldSpec("university_rating", IntField),
    FieldSpec("sop", FloatField),
    FieldSpec("lor", FloatField),
    FieldSpec("cgpa", FloatField),
    FieldSpec("research", IntField)]

  datatype ErrorKind = MissingField | NotAnInt | NotANumber
  datatype FieldError = FieldError(field: string, kind: ErrorKind)

  /** The outcome of validating a request body against `InputModel`. */
  datatype Validated = Valid(input: InputModel) | Invalid(errors: seq<FieldError>)

  /** What is wrong with one field of the body, if anything. An int field
      takes a JSON integer; a float field takes any JSON number. */
  function CheckField(body: map<string, Value>, f: FieldSpec): (fault: Option<ErrorKind>)
    ensures fault.None? <==>
              f.name in body && (body[f.name].JInt? || (f.kind == FloatField && body[f.name].JFloat?))
    ensures fault == Some(MissingField) <==> f.name !in body
    ensures fault == Some(NotANumber) ==> f.kind == FloatField
    ensures fault == Some(NotAnInt) ==> f.kind == IntField
  {
    if f.name !in body then Some(MissingField)
    else match f.kind
      case IntField => if body[f.name].JInt? then None else Some(NotAnInt)
      case FloatField => if body[f.name].JInt? || body[f.name].JFloat? then None else Some(NotANumber)
  }

  /** Every failing field, in declaration order, with what is wrong. */
  function FieldErrors(body: map<string, Value>, fields: seq<FieldSpec>): (errors: seq<FieldError>)
    ensures errors == [] <==> forall i :: 0 <= i < |fields| ==> CheckField(body, fields[i]).None?
    ensures forall e :: e in errors ==>
              exists i :: 0 <= i < |fields| && fields[i].name == e.field && CheckField(body, fields[i]) == Some(e.kind)
  {
    if fields == [] then []
    else
      var rest := FieldErrors(body, fields[1..]);
      assert forall e :: e in rest ==>
               exists i :: 0 < i < |fields| && fields[i].name == e.field && CheckField(body, fields[i]) == Some(e.kind) by {
        forall e | e in rest
          ensures exists i :: 0 < i < |fields| && fields[i].name == e.field && CheckField(body, fields[i]) == Some(e.kind)
        {
          var i :| 0 <= i < |fields[1..]| && fields[1..][i].name == e.field && CheckField(body, fields[1..][i]) == Some(e.kind);
          assert fields[i + 1] == fields[1..][i];
        }
      }
      match CheckField(body, fields[0])
      case None => rest
      case Some(k) => [FieldError(fields[0].name, k)] + rest
  }

  /** The number a validated float field holds. */
  function NumberOf(v: Value): real
    requires v.JInt? || v.JFloat?
  {
    if v.JInt? then v.i as real else v.f
  }

  /** Pydantic's validation of the request body into an `InputModel`:
      either every field is present with its kind, or the body is
      rejected before the handler runs. Unknown keys are ignored. */
  function ParseInput(body: map<string, Value>): (r: Validated)
    ensures r.Valid? <==> forall i :: 0 <= i < |InputFields| ==> CheckField(body, InputFields[i]).None?
    ensures r.Invalid? ==> r.errors != []
  {
    var errors := FieldErrors(body, InputFields);
    if errors != [] then Invalid(errors)
    else
      assert CheckField(body, InputFields[0]).None?;
      assert CheckField(body, InputFields[1]).None?;
      assert CheckField(body, InputFields[2]).None?;
      assert CheckField(body, InputFields[3]).None?;
      assert CheckField(body, InputFields[4]).None?;
      assert CheckField(body, InputFields[5]).None?;
      assert CheckField(body, InputFields[6]).None?;
      Valid(InputModel(
        body["gre_score"].i,
        body["toefl_score"].i,
        body["university_rating"].i,
        NumberOf(body["sop"]),
        NumberOf(body["lor"]),
        NumberOf(body["cgpa"]),
        body["research"].i))
  }

  /** A body lacking any one of the seven fields, or holding a string
      where a number belongs, is rejected before the handler runs, and the
      error names that field and its fault. */
  lemma BadFieldRejected(body: map<string, Value>, k: nat)
    requires k < |InputFields|
    requires InputFields[k].name !in body || body[InputFields[k].name].JStr?
    ensures ParseInput(body).Invalid?
    ensures InputFields[k].name !in body ==>
              FieldError(InputFields[k].name, MissingField) in ParseInput(body).errors
    ensures InputFields[k].name in body ==>
              FieldError(InputFields[k].name, if InputFields[k].kind == IntField then NotAnInt else NotANumber)
                in ParseInput(body).errors
  {
    FieldErrorsReport(body, InputFields, k);
  }

  /** A failing field is reported, with its own complaint. */
  lemma {:induction false} FieldErrorsReport(body: map<string, Value>, fields: seq<FieldSpec>, k: nat)
    requires k < |fields| && CheckField(body, fields[k]).Some?
    ensures FieldError(fields[k].name, CheckField(body, fields[k]).value) in FieldErrors(body, fields)
  {
    if k > 0 {
      assert fields[1..][k - 1] == fields[k];
      FieldErrorsReport(body, fields[1..], k - 1);
    }
  }

  // ---------------------------------------------------------------------
  // Login

  /** `login`'s reply: a token, the one 401 for every failure, or the
      `TypeError` a list or dict username raises at `username in USERS`. */
  datatype LoginResponse =
    | TokenIssued(token: string)
    | Unauthorized(status: int, message: string)
    | RaisedTypeError

  const InvalidCredentials: LoginResponse := Unauthorized(401, "Invalid credentials")

  /** `UniversityAdmissionService.login` at time `now`. */
  function Login(codec: Codec, credentials: map<string, Value>, now: int): (r: LoginResponse)
    // success exactly for a (username, password) pair of the table
    ensures r.TokenIssued? <==>
              exists u :: u in Users && Get(credentials, "username") == JStr(u) &&
                          Get(credentials, "password") == JStr(Users[u])
    // the token is issued to that same username
    ensures r.TokenIssued? ==>
              exists u :: Get(credentials, "username") == JStr(u) && r.token == CreateJwtToken(codec, u, now)
    // every refusal is one and the same response
    ensures r.Unauthorized? ==> r == InvalidCredentials
    ensures r.RaisedTypeError? <==> !Hashable(Get(credentials, "username"))
  {
    var username := Get(credentials, "username");
    var password := Get(credentials, "password");
    if !Hashable(username) then RaisedTypeError
    else if username.JStr? && username.s in Users && password == JStr(Users[username.s]) then
      TokenIssued(CreateJwtToken(codec, username.s, now))
    else InvalidCredentials
  }

  /** The four refusals of the tests (unknown user, wrong password, missing
      username, missing password) give the same 401, so a caller cannot
      tell them apart. */
  lemma LoginRefusals(codec: Codec, now: int)
    ensures Login(codec, map["username" := JStr("invalid_user"), "password" := JStr("password123")], now) == InvalidCredentials
    ensures Login(codec, map["username" := JStr("user123"), "password" := JStr("wrong_password")], now) == InvalidCredentials
    ensures Login(codec, map["password" := JStr("password123")], now) == InvalidCredentials
    ensures Login(codec, map["username" := JStr("user123")], now) == InvalidCredentials
  {
  }

  /** A token from a successful login opens the prediction route for an
      hour, with `state.user` set to the username, and is refused as
      expired afterwards. Any scheme word may precede it. */
  lemma LoginTokenOpensPredict(codec: Codec, credentials: map<string, Value>, issuedAt: int,
                               req: Request, scheme: string, now: int)
    requires Lawful(codec)
    requires Login(codec, credentials, issuedAt).TokenIssued?
    requires req.path == PredictPath && IsWord(scheme)
    requires GetHeader(req.headers, AuthorizationHeader) == Some(scheme + " " + Login(codec, credentials, issuedAt).token)
    ensures Get(credentials, "username").JStr?
    ensures Dispatch(codec, req, now) ==
              if now < issuedAt + TokenTtl then CallNext(req.(user := Assigned(Some(Get(credentials, "username").s))))
              else Reply(401, TokenExpired)
  {
    var u := Get(credentials, "username").s;
    var c := IssuedClaims(u, issuedAt);
    var header := scheme + " " + codec.sign(c, JwtSecretKey);
    assert [] + scheme + " " + codec.sign(c, JwtSecretKey) + [] == header;
    assert IsBlank(" ");
    if now < issuedAt + TokenTtl {
      SignedTokenForwarded(codec, req, [], scheme, " ", c, [], now);
    } else {
      ExpiredTokenRejected(codec, req, [], scheme, " ", c, [], now);
    }
  }

  // ---------------------------------------------------------------------
  // Predict

  /** A cell of the one-row frame: pandas keeps ints as ints. */
  datatype Cell = IntCell(i: int) | FloatCell(f: real)
  datatype Column = Column(name: string, values: seq<Cell>)

  /** The columns the model was fitted on, in order; note the space in
      "LOR ". */
  const FeatureNames: seq<string> :=
    ["GRE Score", "TOEFL Score", "University Rating", "SOP", "LOR ", "CGPA", "Research"]

  /** The frame `predict` builds from its input, one row, no scaling. */
  function FeatureFrame(x: InputModel): (frame: seq<Column>)
    ensures |frame| == |FeatureNames| == |InputFields|
    ensures forall k :: 0 <= k < |frame| ==> frame[k].name == FeatureNames[k] && |frame[k].values| == 1
  {
    [Column("GRE Score", [IntCell(x.greScore)]),
     Column("TOEFL Score", [IntCell(x.toeflScore)]),
     Column("University Rating", [IntCell(x.universityRating)]),
     Column("SOP", [FloatCell(x.sop)]),
     Column("LOR ", [FloatCell(x.lor)]),
     Column("CGPA", [FloatCell(x.cgpa)]),
     Column("Research", [IntCell(x.research)])]
  }

  /** The cell a validated JSON field becomes. */
  function CellOf(kind: FieldKind, v: Value): Cell
    requires kind == IntField ==> v.JInt?
    requires kind == FloatField ==> v.JInt? || v.JFloat?
  {
    match kind
    case IntField => IntCell(v.i)
    case FloatField => FloatCell(NumberOf(v))
  }

  /** Column k of the frame holds the request's k-th field exactly as sent:
      ints as ints, numbers as floats, nothing rescaled. */
  lemma FrameCarriesFields(body: map<string, Value>, k: nat)
    requires ParseInput(body).Valid? && k < |InputFields|
    ensures InputFields[k].name in body
    ensures FeatureFrame(ParseInput(body).input)[k].values ==
              [CellOf(InputFields[k].kind, body[InputFields[k].name])]
  {
    assert CheckField(body, InputFields[k]).None?;
  }

  /** `predict`'s reply, or the `IndexError` of an empty model output. */
  datatype PredictResponse = Prediction(admissionChance: real) | PredictionIndexError

  /** `UniversityAdmissionService.predict` with the loaded `model`. */
  function Predict(model: seq<Column> -> seq<real>, x: InputModel): (r: PredictResponse)
    ensures r.Prediction? <==> model(FeatureFrame(x)) != []
    ensures r.Prediction? ==> r.admissionChance == model(FeatureFrame(x))[0]
  {
    var prediction := model(FeatureFrame(x));
    if prediction == [] then PredictionIndexError else Prediction(prediction[0])
  }

  /** The model is consulted on this input's frame and nothing else: two
      models that agree there give the same reply. */
  lemma PredictSeesOnlyItsFrame(m1: seq<Column> -> seq<real>, m2: seq<Column> -> seq<real>, x: InputModel)
    requires m1(FeatureFrame(x)) == m2(FeatureFrame(x))
    ensures Predict(m1, x) == Predict(m2, x)
  {
  }

  /** The training-time scaling: each listed column divided by its maximum. */
  const TrainingMaxima: map<string, real> :=
    map["GRE Score" := 340.0, "TOEFL Score" := 120.0, "University Rating" := 5.0,
        "SOP" := 5.0, "LOR " := 5.0, "CGPA" := 10.0]

  function CellValue(c: Cell): real {
    match c
    case IntCell(i) => i as real
    case FloatCell(f) => f
  }

  /** The value of the input field behind feature column `k`, read off the
      `InputModel` itself. */
  function RawValue(x: InputModel, k: nat): real
    requires k < |FeatureNames|
  {
    if k == 0 then x.greScore as real
    else if k == 1 then x.toeflScore as real
    else if k == 2 then x.universityRating as real
    else if k == 3 then x.sop
    else if k == 4 then x.lor
    else if k == 5 then x.cgpa
    else x.research as real
  }

  /** Serving does not apply the training scaling: the model is given the
      raw field, which equals the scaled value the training data held only
      when it is 0. Every scaled training column is a frame column, spelled
      the same. */
  lemma ServingSkipsTrainingScale(x: InputModel, k: nat)
    requires k < |FeatureNames| && FeatureNames[k] in TrainingMaxima
    ensures CellValue(FeatureFrame(x)[k].values[0]) == RawValue(x, k)
    ensures RawValue(x, k) / TrainingMaxima[FeatureNames[k]] == RawValue(x, k) <==> RawValue(x, k) == 0.0
    ensures forall name :: name in TrainingMaxima ==> name in FeatureNames
  {
  }

  /** The body of the tests' example. */
  const ExampleBody: map<string, Value> :=
    map["gre_score" := JInt(320), "toefl_score" := JInt(110), "university_rating" := JInt(4),
        "sop" := JFloat(4.5), "lor" := JFloat(4.0), "cgpa" := JFloat(9.0), "research" := JInt(1)]

  /** The tests' example body validates to the expected input. */
  lemma ParseExample()
    ensures ParseInput(ExampleBody) == Valid(InputModel(320, 110, 4, 4.5, 4.0, 9.0, 1))
  {
    assert FieldErrors(ExampleBody, InputFields[6..]) == [];
    assert FieldErrors(ExampleBody, InputFields[5..]) == [];
    assert FieldErrors(ExampleBody, InputFields[4..]) == [];
    assert FieldErrors(ExampleBody, InputFields[3..]) == [];
    assert FieldErrors(ExampleBody, InputFields[2..]) == [];
    assert FieldErrors(ExampleBody, InputFields[1..]) == [];
  }

  /** A model answering 0.85 gives `{"admission_chance": 0.85}`. */
  lemma PredictExample(model: seq<Column> -> seq<real>, x: InputModel)
    requires forall frame :: model(frame) == [0.85]
    ensures Predict(model, x) == Prediction(0.85)
  {
  }
}
