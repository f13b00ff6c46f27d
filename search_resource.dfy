/**
 The `POST /search` endpoint of `SearchResource`: it reads the query and the search
 parameters out of the untyped request body, answers 400 when the query is missing, and
 otherwise forwards the query text alone to the search backend and answers 200 with the
 backend's result list.

 The backend (an Azure AI Search client fixed when the resource is constructed) is a
 function-typed parameter. The value of the `AZURE_SEARCH_INDEX` environment variable is a
 parameter too. The log line the endpoint writes has no effect on its answer and is not modelled.
 */
module SearchResource {
  import opened Wrappers
  import opened JavaValues
  import AsciiCase
  import StringSplit

  /** One search hit as the backend returns it; every field may be a null reference. */
  datatype ScoredKMNR = ScoredKMNR(
    id: Option<string>,
    summary: Option<string>,
    description: Option<string>,
    docType: Option<string>,
    url: Option<string>,
    moduleOrgs: Option<seq<string>>)

  /** `CobraSearchClient.search`: query text in, result list out. */
  type Backend = string -> seq<ScoredKMNR>

  const QUERY := "query"
  const TOP_K := "top_k"
  const TYPE := "type"
  const MODULE_ORGS := "module_orgs"
  const DERIVATIVES := "derivatives"
  const BUILD_PHASES := "build_phases"
  const EXPERT_NAME := "expert_name"
  const RETRIEVAL_MODE := "retrieval_mode"
  const INDEX_NAME := "index_name"

  const DEFAULT_TOP_K: int := 5
  const DEFAULT_RETRIEVAL_MODE := "TEXT"
  const MISSING_QUERY := "Missing 'query' parameter"
  const LIST_EXPECTED := "Expected a string or list of strings"

  const STATUS_OK: int := 200
  const STATUS_BAD_REQUEST: int := 400

  /** The body of a response: a JSON object of strings, or the list of hits. */
  datatype Entity =
    | ErrorEntity(fields: map<string, string>)
    | ResultsEntity(results: seq<ScoredKMNR>)

  datatype Response = Response(status: int, entity: Entity)

  /** What a call to the endpoint does: it returns a response or throws. */
  datatype Outcome =
    | Returned(response: Response)
    | Thrown(exception: JavaException)

  /** The parameters read out of a request, in the form the endpoint holds them. */
  datatype SearchParams = SearchParams(
    text: string,
    topK: int,
    docType: Option<string>,
    moduleOrgs: Option<seq<JValue>>,
    derivatives: Option<seq<JValue>>,
    buildPhases: Option<seq<JValue>>,
    expertName: Option<string>,
    retrievalMode: string,
    indexName: Option<string>)

  /** Why no parameters came out of a request: the query is missing, or a read threw. */
  datatype Rejection =
    | MissingQuery
    | Threw(exception: JavaException)

  // ---------------------------------------------------------------------------
  // getCommaSeparatedParams

  /** The strings as JSON string values. */
  function Strs(ps: seq<string>): seq<JValue>
  {
    seq(|ps|, i requires 0 <= i < |ps| => JStr(ps[i]))
  }

  /** The text of each string value (non-strings read as ""). */
  function Texts(xs: seq<JValue>): seq<string>
  {
    seq(|xs|, i requires 0 <= i < |xs| => if xs[i].JStr? then xs[i].s else "")
  }

  /**
   xs is what cutting s at its commas yields: string values only, none holding a comma,
   whose join with commas is s without its trailing commas, and whose last piece is empty
   only when s is; the empty string yields one empty piece.
   */
  predicate IsCommaSplitOf(xs: seq<JValue>, s: string)
  {
    && (forall i :: 0 <= i < |xs| ==> xs[i].JStr?)
    && StringSplit.AllNoComma(Texts(xs))
    && StringSplit.Join(Texts(xs)) == StringSplit.TrimTrailingCommas(s)
    && (xs == [] || xs[|xs| - 1] != JStr("") || s == "")
    && (s == "" ==> xs == [JStr("")])
  }

  /** `Arrays.asList(s.split(","))`: the pieces of s, as string values. */
  function SplitParam(s: string): (xs: seq<JValue>)
    ensures IsCommaSplitOf(xs, s)
  {
    var ps := StringSplit.Split(s);
    assert Texts(Strs(ps)) == ps;
    Strs(ps)
  }

  /** IsCommaSplitOf leaves one result only: the one SplitParam computes. */
  lemma {:induction false} CommaSplitDetermined(xs: seq<JValue>, s: string)
    requires IsCommaSplitOf(xs, s)
    ensures xs == SplitParam(s)
  {
    if s != "" {
      var ps := Texts(xs);
      assert ps == [] || ps[|ps| - 1] != "";
      StringSplit.SplitUnique(s, ps);
      assert xs == Strs(ps);
    }
  }

  /**
   `getCommaSeparatedParams`: null stays null (absent, never an empty list), a list is
   passed through unchanged, a string is cut at its commas, and anything else is refused
   with an IllegalArgumentException.
   */
  function GetCommaSeparatedParams(param: JValue): (r: Result<Option<seq<JValue>>, JavaException>)
    ensures r == Ok(None) <==> param == JNull
    ensures param.JList? ==> r == Ok(Some(param.items))
    ensures param.JStr? ==> r.Ok? && r.value.Some? && IsCommaSplitOf(r.value.value, param.s)
    ensures r.Err? <==> !(param.JNull? || param.JList? || param.JStr?)
    ensures r.Err? ==> r.error == IllegalArgumentException(LIST_EXPECTED)
  {
    match param
    case JNull => Ok(None)
    case JList(items) => Ok(Some(items))
    case JStr(s) => Ok(Some(SplitParam(s)))
    case _ => Err(IllegalArgumentException(LIST_EXPECTED))
  }

  /** A string parameter is read as the pieces `split(",")` cuts it into. */
  lemma CommaSeparatedString(s: string, ps: seq<string>)
    requires StringSplit.Split(s) == ps
    ensures GetCommaSeparatedParams(JStr(s)) == Ok(Some(Strs(ps)))
  {
  }

  /** Comma-free pieces, the last one not empty, survive a round trip through join and split. */
  lemma {:induction false} CommaSeparatedRoundTrip(ps: seq<string>)
    requires |ps| >= 1 && StringSplit.AllNoComma(ps) && ps[|ps| - 1] != ""
    ensures GetCommaSeparatedParams(JStr(StringSplit.Join(ps))) == Ok(Some(Strs(ps)))
  {
    var s := StringSplit.Join(ps);
    StringSplit.JoinLast(ps);
    StringSplit.SplitUnique(s, ps);
    CommaSeparatedString(s, ps);
  }

  // ---------------------------------------------------------------------------
  // Reading the parameters of search

  function Lift<T>(r: Result<T, JavaException>): (r': Result<T, Rejection>)
  {
    match r
    case Ok(v) => Ok(v)
    case Err(e) => Err(Threw(e))
  }

  /** `((String) v).toUpperCase()`. */
  function UpperCased(v: JValue): (r: Result<string, JavaException>)
    ensures r.Ok? <==> v.JStr?
    ensures v.JStr? ==> r == Ok(AsciiCase.ToUpper(v.s))
    ensures v.JNull? ==> r == Err(NullPointerException)
    ensures !v.JNull? && !v.JStr? ==> r == Err(ClassCastException)
  {
    var s :- CastToString(v);
    if s.None? then Err(NullPointerException) else Ok(AsciiCase.ToUpper(s.value))
  }

  /** The value `System.getenv` yields: a string, or null when the variable is unset. */
  function EnvValue(env: Option<string>): JValue
  {
    if env.Some? then JStr(env.value) else JNull
  }

  predicate IsStringOrNull(v: JValue) {
    v.JNull? || v.JStr?
  }

  predicate IsListParam(v: JValue) {
    v.JNull? || v.JStr? || v.JList?
  }

  /** Every optional parameter has a shape the endpoint can read without throwing. */
  predicate WellShaped(req: JsonObject)
  {
    && (TOP_K in req ==> req[TOP_K].JInt?)
    && IsStringOrNull(Get(req, TYPE))
    && IsListParam(Get(req, MODULE_ORGS))
    && IsListParam(Get(req, DERIVATIVES))
    && IsListParam(Get(req, BUILD_PHASES))
    && IsStringOrNull(Get(req, EXPERT_NAME))
    && (RETRIEVAL_MODE in req ==> req[RETRIEVAL_MODE].JStr?)
    && IsStringOrNull(Get(req, INDEX_NAME))
  }

  /** `((Number) getOrDefault("top_k", 5)).intValue()`. */
  function ReadTopK(req: JsonObject): (r: Result<int, JavaException>)
    ensures r.Ok? <==> (TOP_K in req ==> req[TOP_K].JInt?)
    ensures TOP_K !in req ==> r == Ok(DEFAULT_TOP_K)
    ensures r.Ok? && TOP_K in req ==> r.value == Int32(req[TOP_K].n)
    ensures TOP_K in req && req[TOP_K].JInt? && INT_MIN <= req[TOP_K].n <= INT_MAX ==> r == Ok(req[TOP_K].n)
    ensures r.Ok? ==> INT_MIN <= r.value <= INT_MAX
    ensures TOP_K in req && req[TOP_K] == JNull ==> r == Err(NullPointerException)
    ensures TOP_K in req && !req[TOP_K].JNull? && !req[TOP_K].JInt? ==> r == Err(ClassCastException)
  {
    IntValue(GetOrDefault(req, TOP_K, JInt(DEFAULT_TOP_K)))
  }

  /** `((String) getOrDefault("retrieval_mode", "TEXT")).toUpperCase()`. */
  function ReadRetrievalMode(req: JsonObject): (r: Result<string, JavaException>)
    ensures r.Ok? <==> (RETRIEVAL_MODE in req ==> req[RETRIEVAL_MODE].JStr?)
    ensures RETRIEVAL_MODE !in req ==> r == Ok(DEFAULT_RETRIEVAL_MODE)
    ensures r.Ok? && RETRIEVAL_MODE in req ==> r.value == AsciiCase.ToUpper(req[RETRIEVAL_MODE].s)
    ensures r.Ok? ==> AsciiCase.NoLower(r.value)
    ensures RETRIEVAL_MODE in req && req[RETRIEVAL_MODE] == JNull ==> r == Err(NullPointerException)
    ensures RETRIEVAL_MODE in req && !req[RETRIEVAL_MODE].JNull? && !req[RETRIEVAL_MODE].JStr? ==> r == Err(ClassCastException)
  {
    var d := JStr(DEFAULT_RETRIEVAL_MODE);
    assert AsciiCase.NoLower(DEFAULT_RETRIEVAL_MODE);
    AsciiCase.ToUpperOfNoLower(DEFAULT_RETRIEVAL_MODE);
    UpperCased(GetOrDefault(req, RETRIEVAL_MODE, d))
  }

  /** `(String) getOrDefault("index_name", System.getenv("AZURE_SEARCH_INDEX"))`. */
  function ReadIndexName(req: JsonObject, defaultIndex: Option<string>): (r: Result<Option<string>, JavaException>)
    ensures r.Ok? <==> IsStringOrNull(Get(req, INDEX_NAME))
    ensures INDEX_NAME !in req ==> r == Ok(defaultIndex)
    ensures INDEX_NAME in req && req[INDEX_NAME] == JNull ==> r == Ok(None)
    ensures INDEX_NAME in req && req[INDEX_NAME].JStr? ==> r == Ok(Some(req[INDEX_NAME].s))
    ensures r.Err? ==> r.error == ClassCastException
  {
    CastToString(GetOrDefault(req, INDEX_NAME, EnvValue(defaultIndex)))
  }

  /**
   The reads that follow the query check in `search`, in the order the endpoint makes
   them; the first read that throws decides the exception.
   */
  function ReadParams(req: JsonObject, defaultIndex: Option<string>, text: string): (r: Result<SearchParams, JavaException>)
    ensures r.Ok? <==> WellShaped(req)
    ensures r.Ok? ==> r.value.text == text
    ensures r.Ok? ==> Ok(r.value.topK) == ReadTopK(req)
    ensures r.Ok? ==> Ok(r.value.docType) == CastToString(Get(req, TYPE))
    ensures r.Ok? ==> Ok(r.value.moduleOrgs) == GetCommaSeparatedParams(Get(req, MODULE_ORGS))
    ensures r.Ok? ==> Ok(r.value.derivatives) == GetCommaSeparatedParams(Get(req, DERIVATIVES))
    ensures r.Ok? ==> Ok(r.value.buildPhases) == GetCommaSeparatedParams(Get(req, BUILD_PHASES))
    ensures r.Ok? ==> Ok(r.value.expertName) == CastToString(Get(req, EXPERT_NAME))
    ensures r.Ok? ==> Ok(r.value.retrievalMode) == ReadRetrievalMode(req)
    ensures r.Ok? ==> Ok(r.value.indexName) == ReadIndexName(req, defaultIndex)
    // On failure, the exception is that of the first read that fails.
    ensures ReadTopK(req).Err? ==> r == Err(ReadTopK(req).error)
    ensures ReadTopK(req).Ok? && !IsStringOrNull(Get(req, TYPE))
      ==> r == Err(ClassCastException)
    ensures ReadTopK(req).Ok? && IsStringOrNull(Get(req, TYPE))
      && !IsListParam(Get(req, MODULE_ORGS))
      ==> r == Err(IllegalArgumentException(LIST_EXPECTED))
    ensures ReadTopK(req).Ok? && IsStringOrNull(Get(req, TYPE))
      && IsListParam(Get(req, MODULE_ORGS)) && !IsListParam(Get(req, DERIVATIVES))
      ==> r == Err(IllegalArgumentException(LIST_EXPECTED))
    ensures ReadTopK(req).Ok? && IsStringOrNull(Get(req, TYPE))
      && IsListParam(Get(req, MODULE_ORGS)) && IsListParam(Get(req, DERIVATIVES))
      && !IsListParam(Get(req, BUILD_PHASES))
      ==> r == Err(IllegalArgumentException(LIST_EXPECTED))
    ensures ReadTopK(req).Ok? && IsStringOrNull(Get(req, TYPE))
      && IsListParam(Get(req, MODULE_ORGS)) && IsListParam(Get(req, DERIVATIVES))
      && IsListParam(Get(req, BUILD_PHASES)) && !IsStringOrNull(Get(req, EXPERT_NAME))
      ==> r == Err(ClassCastException)
    ensures ReadTopK(req).Ok? && IsStringOrNull(Get(req, TYPE))
      && IsListParam(Get(req, MODULE_ORGS)) && IsListParam(Get(req, DERIVATIVES))
      && IsListParam(Get(req, BUILD_PHASES)) && IsStringOrNull(Get(req, EXPERT_NAME))
      && ReadRetrievalMode(req).Err?
      ==> r == Err(ReadRetrievalMode(req).error)
    ensures ReadTopK(req).Ok? && IsStringOrNull(Get(req, TYPE))
      && IsListParam(Get(req, MODULE_ORGS)) && IsListParam(Get(req, DERIVATIVES))
      && IsListParam(Get(req, BUILD_PHASES)) && IsStringOrNull(Get(req, EXPERT_NAME))
      && ReadRetrievalMode(req).Ok? && !IsStringOrNull(Get(req, INDEX_NAME))
      ==> r == Err(ClassCastException)
  {
    var topK :- ReadTopK(req);
    var docType :- CastToString(Get(req, TYPE));
    var moduleOrgs :- GetCommaSeparatedParams(Get(req, MODULE_ORGS));
    var derivatives :- GetCommaSeparatedParams(Get(req, DERIVATIVES));
    var buildPhases :- GetCommaSeparatedParams(Get(req, BUILD_PHASES));
    var expertName :- CastToString(Get(req, EXPERT_NAME));
    var retrievalMode :- ReadRetrievalMode(req);
    var indexName :- ReadIndexName(req, defaultIndex);
    Ok(SearchParams(text, topK, docType, moduleOrgs, derivatives, buildPhases,
                    expertName, retrievalMode, indexName))
  }

  /**
   The parameter-reading prefix of `search`: a missing or null query is the client's
   fault, a query of another shape throws, and a string query is followed by the reads
   of ReadParams.
   */
  function ParseRequest(req: JsonObject, defaultIndex: Option<string>): (r: Result<SearchParams, Rejection>)
    ensures r == Err(MissingQuery) <==> Get(req, QUERY) == JNull
    ensures !IsStringOrNull(Get(req, QUERY)) ==> r == Err(Threw(ClassCastException))
    ensures r.Ok? <==> Get(req, QUERY).JStr? && WellShaped(req)
    ensures r.Ok? ==> QUERY in req && r.value.text == req[QUERY].s
    ensures Get(req, QUERY).JStr? ==> r == Lift(ReadParams(req, defaultIndex, req[QUERY].s))
  {
    var query :- Lift(CastToString(Get(req, QUERY)));
    if query.None? then Err(MissingQuery)
    else Lift(ReadParams(req, defaultIndex, query.value))
  }

  // ---------------------------------------------------------------------------
  // search

  /** `search`: 400 on a missing query, otherwise the backend's hits for the query text. */
  function Search(req: JsonObject, defaultIndex: Option<string>, backend: Backend): (r: Outcome)
    ensures r.Returned? && r.response.status == STATUS_BAD_REQUEST <==> Get(req, QUERY) == JNull
    ensures r.Returned? && r.response.status == STATUS_BAD_REQUEST ==>
              r.response.entity == ErrorEntity(map["error" := MISSING_QUERY])
    ensures r.Returned? && r.response.status == STATUS_OK <==> Get(req, QUERY).JStr? && WellShaped(req)
    ensures r.Returned? && r.response.status == STATUS_OK ==>
              r.response.entity == ResultsEntity(backend(req[QUERY].s))
    ensures r.Returned? ==> r.response.status in {STATUS_OK, STATUS_BAD_REQUEST}
  {
    match ParseRequest(req, defaultIndex)
    case Err(MissingQuery) =>
      Returned(Response(STATUS_BAD_REQUEST, ErrorEntity(map["error" := MISSING_QUERY])))
    case Err(Threw(e)) => Thrown(e)
    case Ok(params) => Returned(Response(STATUS_OK, ResultsEntity(backend(params.text))))
  }

  /** The exception a failed read throws is what the endpoint throws. */
  lemma SearchThrowsWhatParsingThrows(req: JsonObject, defaultIndex: Option<string>, backend: Backend)
    ensures Search(req, defaultIndex, backend).Thrown? <==>
              (ParseRequest(req, defaultIndex).Err? && ParseRequest(req, defaultIndex).error.Threw?)
    ensures Search(req, defaultIndex, backend).Thrown? ==>
              Search(req, defaultIndex, backend).exception == ParseRequest(req, defaultIndex).error.exception
  {
  }

  /**
   The backend is asked about the query text and nothing else: two backends that agree on
   the query text give the same outcome, and when the query is missing the backend is not
   consulted at all.
   */
  lemma BackendSeesOnlyQueryText(req: JsonObject, defaultIndex: Option<string>, b1: Backend, b2: Backend)
    requires Get(req, QUERY).JStr? ==> b1(Get(req, QUERY).s) == b2(Get(req, QUERY).s)
    ensures Search(req, defaultIndex, b1) == Search(req, defaultIndex, b2)
  {
  }

  /**
   Only the query text influences the answer: top_k, the filters, retrieval_mode,
   index_name and the configured default index do not, as long as they can be read.
   */
  lemma OtherParametersDoNotMatter(req1: JsonObject, req2: JsonObject, d1: Option<string>, d2: Option<string>, backend: Backend)
    requires Get(req1, QUERY).JStr? && Get(req2, QUERY) == Get(req1, QUERY)
    requires WellShaped(req1) && WellShaped(req2)
    ensures Search(req1, d1, backend) == Search(req2, d2, backend)
  {
  }

  /** A list parameter of the wrong shape makes the endpoint throw IllegalArgumentException. */
  lemma ListParamOfWrongShapeThrows(req: JsonObject, defaultIndex: Option<string>, backend: Backend)
    requires Get(req, QUERY).JStr?
    requires TOP_K in req ==> req[TOP_K].JInt?
    requires IsStringOrNull(Get(req, TYPE))
    requires !IsListParam(Get(req, MODULE_ORGS))
    ensures Search(req, defaultIndex, backend) == Thrown(IllegalArgumentException(LIST_EXPECTED))
  {
  }

  /** A null top_k is not replaced by 5: calling intValue() on the null reference throws. */
  lemma NullIsNotDefaulted(req: JsonObject, defaultIndex: Option<string>, backend: Backend)
    requires Get(req, QUERY).JStr?
    requires TOP_K in req && req[TOP_K] == JNull
    ensures Search(req, defaultIndex, backend) == Thrown(NullPointerException)
  {
  }

  /** A null retrieval_mode is not replaced by "TEXT": upper-casing the null reference throws. */
  lemma NullRetrievalModeThrows(req: JsonObject, defaultIndex: Option<string>, backend: Backend)
    requires Get(req, QUERY).JStr?
    requires TOP_K in req ==> req[TOP_K].JInt?
    requires IsStringOrNull(Get(req, TYPE))
    requires IsListParam(Get(req, MODULE_ORGS)) && IsListParam(Get(req, DERIVATIVES)) && IsListParam(Get(req, BUILD_PHASES))
    requires IsStringOrNull(Get(req, EXPERT_NAME))
    requires RETRIEVAL_MODE in req && req[RETRIEVAL_MODE] == JNull
    ensures Search(req, defaultIndex, backend) == Thrown(NullPointerException)
  {
  }

  /** The retrieval mode the endpoint keeps is already normalised: normalising it again changes nothing. */
  lemma RetrievalModeNormalised(req: JsonObject, defaultIndex: Option<string>)
    requires ParseRequest(req, defaultIndex).Ok?
    ensures AsciiCase.ToUpper(ParseRequest(req, defaultIndex).value.retrievalMode) ==
              ParseRequest(req, defaultIndex).value.retrievalMode
  {
  }

  /**
   A request holding only a query, such as {"query": "firmware update"}, is read with every
   default: top_k 5, mode "TEXT", no filters and the configured index; the answer is 200
   with the backend's hits for the query text.
   */
  lemma QueryOnlyRequest(q: string, defaultIndex: Option<string>, backend: Backend)
    ensures ParseRequest(map[QUERY := JStr(q)], defaultIndex) ==
              Ok(SearchParams(q, 5, None, None, None, None, None, "TEXT", defaultIndex))
    ensures Search(map[QUERY := JStr(q)], defaultIndex, backend) ==
              Returned(Response(STATUS_OK, ResultsEntity(backend(q))))
  {
    var req := map[QUERY := JStr(q)];
    assert |QUERY| == 5 && |TOP_K| == 5 && QUERY[0] == 'q' && |TYPE| == 4 && |MODULE_ORGS| == 11;
    assert |DERIVATIVES| == 11 && |BUILD_PHASES| == 12 && |EXPERT_NAME| == 11;
    assert |RETRIEVAL_MODE| == 14 && |INDEX_NAME| == 10;
    assert req.Keys == {QUERY};
    assert WellShaped(req);
  }

  /**
   A request such as {"query": "x", "module_orgs": "org1,org2", "top_k": 10}: the list is
   cut into its two names and top_k is taken, yet the backend still receives only the
   query text.
   */
  lemma RequestWithFilters(q: string, org1: string, org2: string, defaultIndex: Option<string>, backend: Backend)
    requires StringSplit.NoComma(org1) && StringSplit.NoComma(org2) && org2 != ""
    ensures ParseRequest(map[QUERY := JStr(q), MODULE_ORGS := JStr(org1 + "," + org2), TOP_K := JInt(10)], defaultIndex) ==
              Ok(SearchParams(q, 10, None, Some([JStr(org1), JStr(org2)]), None, None, None, "TEXT", defaultIndex))
    ensures Search(map[QUERY := JStr(q), MODULE_ORGS := JStr(org1 + "," + org2), TOP_K := JInt(10)], defaultIndex, backend) ==
              Returned(Response(STATUS_OK, ResultsEntity(backend(q))))
  {
    var req := map[QUERY := JStr(q), MODULE_ORGS := JStr(org1 + "," + org2), TOP_K := JInt(10)];
    var orgs := [org1, org2];
    assert StringSplit.Join(orgs) == org1 + "," + org2;
    CommaSeparatedRoundTrip(orgs);
    assert Strs(orgs) == [JStr(org1), JStr(org2)];
    FiltersRequestShape(req, q, org1 + "," + org2);
  }

  lemma FiltersRequestShape(req: JsonObject, q: string, orgs: string)
    requires req == map[QUERY := JStr(q), MODULE_ORGS := JStr(orgs), TOP_K := JInt(10)]
    ensures Get(req, QUERY) == JStr(q) && Get(req, MODULE_ORGS) == JStr(orgs) && TOP_K in req && req[TOP_K] == JInt(10)
    ensures Get(req, TYPE) == JNull && Get(req, DERIVATIVES) == JNull && Get(req, BUILD_PHASES) == JNull
    ensures Get(req, EXPERT_NAME) == JNull && RETRIEVAL_MODE !in req && INDEX_NAME !in req
  {
    assert |QUERY| == 5 && QUERY[0] == 'q' && |TOP_K| == 5 && |MODULE_ORGS| == 11 && MODULE_ORGS[0] == 'm';
    assert |TYPE| == 4 && |DERIVATIVES| == 11 && DERIVATIVES[0] == 'd' && |BUILD_PHASES| == 12;
    assert |EXPERT_NAME| == 11 && EXPERT_NAME[0] == 'e' && |RETRIEVAL_MODE| == 14 && |INDEX_NAME| == 10;
    assert req.Keys == {QUERY, MODULE_ORGS, TOP_K};
  }
}
