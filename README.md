# Search endpoint of quarkus-ai-search, modelled in Dafny

The service exposes `POST /search`. Its resource class, `SearchResource`, reads a JSON
object. It takes the query text and the search parameters out of it: `top_k`, `type`,
the three comma-separated filter lists `module_orgs`, `derivatives` and `build_phases`,
`expert_name`, `retrieval_mode` and `index_name`. If the query is missing, it answers
400 with `{"error": "Missing 'query' parameter"}`. A query that is not a string, or a
parameter of the wrong shape, makes it throw. Otherwise, when every parameter can be
read, it hands the query text, and nothing else, to the Azure AI Search client and answers 200 with that client's list
of hits.

The model is made of pure functions and lemmas. `Wrappers` (`wrappers.dfy`) holds the
`Option` and `Result` types, and four modules model the endpoint:

- `StringSplit` (`string_split.dfy`) models Java's `String.split(",")`. Java's limit-0
  rule drops trailing empty pieces, except that a string without a comma comes back
  whole. The module also models `String.join(",", …)`. It proves that the pieces hold no
  comma, that joining them gives back the input without its trailing commas, that the
  last piece is empty only for the empty input, and that `""` gives `[""]`. For a
  non-empty input, the first three properties determine the result uniquely
  (`SplitUnique`). The first two alone do not: for `""` and for `",,,"` both `[]` and
  `[""]` meet them.
- `JavaValues` (`java_values.dfy`) holds the untyped JSON values as the endpoint receives
  them. It models `Map.get` and `Map.getOrDefault`; the default applies only to an absent
  key, never to a key bound to `null`; the contracts of `ReadTopK`, `ReadRetrievalMode` and
  `ReadIndexName` state that difference where the endpoint relies on it. It also models the cast `(String)`, the call
  `((Number) v).intValue()` and the exceptions these throw.
- `AsciiCase` (`ascii_case.dfy`) models `String.toUpperCase()` as the plain ASCII mapping
  of `a`–`z` to `A`–`Z`, as in a default locale such as English; see "## Left out".
- `SearchResource` (`search_resource.dfy`) models `getCommaSeparatedParams`, the
  parameter-reading prefix of `search` (`ParseRequest`) and `search` itself (`Search`).

The backend is a function-typed parameter `Backend = string -> seq<ScoredKMNR>`. The
value of the `AZURE_SEARCH_INDEX` environment variable is a parameter too
(`defaultIndex: Option<string>`, `None` when the variable is unset). A call of the endpoint ends in an `Outcome`: either a `Response`
(a status and an entity) or a thrown `JavaException`. The parameters are read in the
source's order, and the first read that throws decides the exception.

Behaviours of the code that the model keeps:

- A query of any string value, the empty string included, is forwarded. The code does
  not trim it and does not reject an empty one.
- A string filter loses its trailing empty pieces (`"a,"` gives `["a"]`), because that
  is what `String.split` does.
- A list filter is passed through as it is, whatever its elements are, because the cast
  `(List<String>)` is unchecked.
- `retrieval_mode` is upper-cased but never checked against `TEXT`, `VECTOR` or `HYBRID`.
- An explicit `null` for `top_k` or `retrieval_mode` is not replaced by the default, so
  reading it throws `NullPointerException`.
- An explicit `null` for `index_name` yields a null index name, not the configured one.
- `top_k` is kept as `intValue()` gives it: the low 32 bits of the integer, in two's
  complement.

## Model

| member | source | states |
|---|---|---|
| `StringSplit.SplitAll` | src/main/java/neutrino/publicapi/SearchResource.java:76 | cutting at every comma gives at least one piece, and no piece contains a comma |
| `StringSplit.JoinSplitAll` | src/main/java/neutrino/publicapi/SearchResource.java:76 | joining the raw pieces with commas gives back the input exactly |
| `StringSplit.SplitAllJoin` | src/main/java/neutrino/publicapi/SearchResource.java:76 | cutting the join of one or more comma-free pieces gives back those pieces |
| `StringSplit.Split` | src/main/java/neutrino/publicapi/SearchResource.java:76 | `split(",")` pieces hold no comma; joining them with commas gives the input without its trailing commas; the last piece is empty only for the empty input, and `""` gives `[""]` |
| `StringSplit.SplitUnique` | src/main/java/neutrino/publicapi/SearchResource.java:76 | for a non-empty input, any comma-free sequence without an empty last piece whose join is the input minus its trailing commas is exactly `split(",")` |
| `StringSplit.SplitExampleABC` | src/main/java/neutrino/publicapi/SearchResource.java:76 | `"a,b,c"` splits into `["a","b","c"]` |
| `StringSplit.SplitExampleOrgs` | src/main/java/neutrino/publicapi/SearchResource.java:76 | `"org1,org2"` splits into `["org1","org2"]` |
| `StringSplit.SplitExampleInnerAndLeadingEmpty` | src/main/java/neutrino/publicapi/SearchResource.java:76 | leading and inner empty pieces are kept, trailing ones dropped: `",a,,b,,"` gives `["","a","","b"]` |
| `StringSplit.SplitExampleOnlyCommas` | src/main/java/neutrino/publicapi/SearchResource.java:76 | `",,,"` splits into no pieces at all |
| `JavaValues.CastToString` | src/main/java/neutrino/publicapi/SearchResource.java:39 | `(String)` succeeds exactly on null and strings, keeps null as null, and otherwise throws ClassCastException |
| `JavaValues.Int32` | src/main/java/neutrino/publicapi/SearchResource.java:38 | the result is a 32-bit int congruent to the input modulo 2^32, equal to the input when it fits |
| `JavaValues.IntValue` | src/main/java/neutrino/publicapi/SearchResource.java:38 | `((Number) v).intValue()` succeeds exactly on integers and yields their low 32 bits in two's complement (`Int32`), the integer itself when it fits; null throws NullPointerException and other shapes throw ClassCastException |
| `AsciiCase.ToUpper` | src/main/java/neutrino/publicapi/SearchResource.java:44 | same length, no lower-case letter left, every other character kept, each lower-case letter replaced by its upper-case letter |
| `AsciiCase.ToUpperOfNoLower` | src/main/java/neutrino/publicapi/SearchResource.java:44 | a string without lower-case letters is left unchanged |
| `AsciiCase.ToUpperIdempotent` | src/main/java/neutrino/publicapi/SearchResource.java:44 | normalising twice is the same as normalising once |
| `AsciiCase.ToUpperExample` | src/main/java/neutrino/publicapi/SearchResource.java:44 | `"text"` becomes `"TEXT"` |
| `SearchResource.GetCommaSeparatedParams` | src/main/java/neutrino/publicapi/SearchResource.java:68-82 | null, and only null, gives absent, never an empty list; a list is returned unchanged; a string becomes comma-free string pieces whose join is the string minus its trailing commas, whose last piece is empty only for `""`, and `""` gives `[""]`; every other shape, and only those, throws IllegalArgumentException("Expected a string or list of strings") |
| `SearchResource.SplitParam` | src/main/java/neutrino/publicapi/SearchResource.java:76 | the string values `Arrays.asList(s.split(","))` yields hold no comma, join with commas to s minus its trailing commas, and end in an empty piece only for the empty string, which gives `[""]` |
| `SearchResource.CommaSplitDetermined` | src/main/java/neutrino/publicapi/SearchResource.java:76 | the properties promised for a string parameter leave exactly one result, the one `Arrays.asList(s.split(","))` gives |
| `SearchResource.CommaSeparatedRoundTrip` | src/main/java/neutrino/publicapi/SearchResource.java:76 | a string parameter made by joining comma-free names with commas, the last one not empty, is read back as exactly those names in order: `"org1,org2"` gives `["org1","org2"]` |
| `SearchResource.UpperCased` | src/main/java/neutrino/publicapi/SearchResource.java:44 | `((String) v).toUpperCase()` succeeds exactly on strings; null throws NullPointerException and other shapes throw ClassCastException |
| `SearchResource.ReadTopK` | src/main/java/neutrino/publicapi/SearchResource.java:38 | `top_k` is 5 when absent, the given integer when it fits in 32 bits (its low 32 bits otherwise); null throws NullPointerException; any other present value throws ClassCastException |
| `SearchResource.ReadRetrievalMode` | src/main/java/neutrino/publicapi/SearchResource.java:44 | `retrieval_mode` is `"TEXT"` when absent and the upper-cased string when given, never holding a lower-case letter; null throws NullPointerException; any other present value throws ClassCastException |
| `SearchResource.ReadIndexName` | src/main/java/neutrino/publicapi/SearchResource.java:45 | `index_name` is the configured default only when absent; an explicit null stays null; a string is kept; any other value throws ClassCastException |
| `SearchResource.ReadParams` | src/main/java/neutrino/publicapi/SearchResource.java:38-45 | reading the parameters after the query succeeds exactly when every parameter is well-shaped, and then each field is what its own read yields (`top_k`, `type`, the three lists through `getCommaSeparatedParams`, `expert_name`, `retrieval_mode`, `index_name`); otherwise the result is the exception of the first read that fails, in that order: ClassCastException for `type`, `expert_name` and `index_name`, IllegalArgumentException("Expected a string or list of strings") for each list, and the `top_k` and `retrieval_mode` reads' own exceptions |
| `SearchResource.ParseRequest` | src/main/java/neutrino/publicapi/SearchResource.java:33-45 | a missing or null query, and only that, is the missing-query rejection; a non-string query throws ClassCastException; reading succeeds exactly on a string query with well-shaped parameters, and keeps the query text |
| `SearchResource.Search` | src/main/java/neutrino/publicapi/SearchResource.java:33-65 | status 400 exactly when the query is missing or null, with the body `{"error": "Missing 'query' parameter"}`; status 200 exactly when the query is a string and the parameters are well-shaped, with exactly the backend's list for the query text; no other status |
| `SearchResource.SearchThrowsWhatParsingThrows` | src/main/java/neutrino/publicapi/SearchResource.java:33-45 | the endpoint throws exactly when reading a parameter throws, and it throws that same exception |
| `SearchResource.BackendSeesOnlyQueryText` | src/main/java/neutrino/publicapi/SearchResource.java:63 | two backends that agree on the query text give the same outcome; when the query is missing, the backend is not consulted at all |
| `SearchResource.OtherParametersDoNotMatter` | src/main/java/neutrino/publicapi/SearchResource.java:38-65 | two well-shaped requests with the same query have the same outcome, whatever their `top_k`, filters, `retrieval_mode`, `index_name` and configured default index |
| `SearchResource.ListParamOfWrongShapeThrows` | src/main/java/neutrino/publicapi/SearchResource.java:79-80 | for a string query whose earlier parameters (`top_k`, `type`) are readable, a `module_orgs` that is neither null, list nor string makes the endpoint throw IllegalArgumentException("Expected a string or list of strings") |
| `SearchResource.NullIsNotDefaulted` | src/main/java/neutrino/publicapi/SearchResource.java:38 | for a string query, an explicit null `top_k` is not replaced by 5; the endpoint throws NullPointerException |
| `SearchResource.NullRetrievalModeThrows` | src/main/java/neutrino/publicapi/SearchResource.java:44 | for a string query whose earlier parameters are readable, an explicit null `retrieval_mode` is not replaced by `"TEXT"`; the endpoint throws NullPointerException |
| `SearchResource.RetrievalModeNormalised` | src/main/java/neutrino/publicapi/SearchResource.java:44 | the retrieval mode the endpoint keeps is a fixed point of upper-casing |
| `SearchResource.QueryOnlyRequest` | src/main/java/neutrino/publicapi/SearchResource.java:33-65 | a request with only a query, such as `{"query": "firmware update"}`, is read with top_k 5, mode `"TEXT"`, no filters and the configured index, and answers 200 with the backend's list for the query text |
| `SearchResource.RequestWithFilters` | src/main/java/neutrino/publicapi/SearchResource.java:33-65 | a request such as `{"query": "x", "module_orgs": "org1,org2", "top_k": 10}` is read with module_orgs `["org1","org2"]` and top_k 10, and still answers with the backend's list for the query text alone |

## Left out

- The log message built and written by `search` (src/main/java/neutrino/publicapi/SearchResource.java:47-61). It is observational only and does not affect the answer.
- `CobraSearchClient` (src/main/java/neutrino/search/CobraSearchClient.java). It is a network client of Azure AI Search with a fixed endpoint, index, credential and page size of 5. It is the `Backend` parameter here. Its failures (network, authentication) propagate in the source and are not modelled: the backend always returns a list.
- The `AZURE_SEARCH_INDEX` environment variable. Its value is the `defaultIndex` parameter.
- JAX-RS routing, annotations and the building of `Response` objects. A response is a plain status and entity.
- A request body that is JSON `null`, so that the map itself is null. The model always receives a map.
- JSON numbers with a fractional part. `Number.intValue()` would truncate a Double for `top_k`, and floating point is not modelled. Under `getCommaSeparatedParams` and the string casts, such a number would behave like `JOther`.
- `AsciiCase.ToUpper`: covers ASCII letters only and assumes a default locale with the plain `a`–`z` to `A`–`Z` mapping. `String.toUpperCase()` depends on the default locale: it also maps non-ASCII letters, for example `ß` to `SS`, and in a Turkish or Azeri locale even ASCII `i` becomes `İ` (U+0130), so `"hybrid"` would become `"HYBRİD"`.
- `RetrievalMode` (src/main/java/neutrino/search/enums/RetrievalMode.java): the endpoint never consults it.
- The greeting endpoint, `Greeting` and their test. They hold constant strings and one concatenation.
