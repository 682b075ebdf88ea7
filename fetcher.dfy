/** `obtenerHoteles` in script.js: one GET to the hotels endpoint, reduced to
    its outcome. The request itself, the network and JSON parsing are not
    modelled; a `Response` says what they produced. */
module Fetcher {
  import opened Text
  import opened Cards

  /** The parsed body: JSON that failed to parse, a non-array value, or an array. */
  datatype Body = Malformed | NotArray | Array(entries: seq<Entry>)

  /** What `fetch(API_URL)` settles to: a rejection (network failure), or a
      response with its status code and body. */
  datatype Response = NetworkFailure | Response(status: nat, body: Body)

  /** The errors `obtenerHoteles` lets escape. */
  datatype FetchError = NetworkError | HttpError(message: string) | ParseError

  datatype Fetched = Hotels(entries: seq<Entry>) | Failed(error: FetchError)

  const HTTP_ERROR_PREFIX: string := "Solicitud fallida con estado "

  /** `respuesta.ok`: the status is in the success range 200-299. */
  predicate IsOk(status: nat) {
    200 <= status <= 299
  }

  function HttpErrorMessage(status: nat): string {
    HTTP_ERROR_PREFIX + NatToString(status)
  }

  /** `obtenerHoteles()`. A non-ok status fails before the body is read; an
      ok body that is not an array yields no hotels rather than an error. */
  function FetchHotels(r: Response): (f: Fetched)
    ensures f.Failed? <==> r.NetworkFailure? || !IsOk(r.status) || r.body.Malformed?
    ensures r.Response? && !IsOk(r.status) ==> f == Failed(HttpError(HttpErrorMessage(r.status)))
    ensures r.Response? && IsOk(r.status) && r.body.NotArray? ==> f == Hotels([])
    ensures r.Response? && IsOk(r.status) && r.body.Array? ==> f == Hotels(r.body.entries)
  {
    match r
    case NetworkFailure => Failed(NetworkError)
    case Response(status, body) =>
      if !IsOk(status) then Failed(HttpError(HttpErrorMessage(status)))
      else
        match body
        case Malformed => Failed(ParseError)
        case NotArray => Hotels([])
        case Array(entries) => Hotels(entries)
  }

  /** The status can be read back from the HTTP error's message: the message
      is the fixed prefix followed by the status in decimal. */
  lemma {:induction false} HttpErrorCarriesStatus(r: Response)
    requires r.Response? && !IsOk(r.status)
    ensures var f := FetchHotels(r);
            f.Failed? && f.error.HttpError?
            && |f.error.message| > |HTTP_ERROR_PREFIX|
            && f.error.message[..|HTTP_ERROR_PREFIX|] == HTTP_ERROR_PREFIX
            && IsDigits(f.error.message[|HTTP_ERROR_PREFIX|..])
            && ParseNat(f.error.message[|HTTP_ERROR_PREFIX|..]) == r.status
  {
    var m := HttpErrorMessage(r.status);
    assert m[|HTTP_ERROR_PREFIX|..] == NatToString(r.status);
    ParseNatToString(r.status);
  }

  /** Two failing statuses give two different messages. */
  lemma {:induction false} HttpErrorDistinguishesStatus(s1: nat, s2: nat)
    requires s1 != s2
    ensures HttpErrorMessage(s1) != HttpErrorMessage(s2)
  {
    if HttpErrorMessage(s1) == HttpErrorMessage(s2) {
      assert HttpErrorMessage(s1)[|HTTP_ERROR_PREFIX|..] == NatToString(s1);
      assert HttpErrorMessage(s2)[|HTTP_ERROR_PREFIX|..] == NatToString(s2);
      NatToStringInjective(s1, s2);
    }
  }
}
