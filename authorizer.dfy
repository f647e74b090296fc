/** The API Gateway request authorizer (ts/lambdas/authorizer/index.ts): it always allows the
    call, and passes the `clientId` header, looked up ignoring case, on as the usage key. */
module Authorizer {
  import opened Wrappers
  import opened Strings

  /** A request's headers, in the order `for … in` visits them; `None` is a null `headers`. */
  type Headers = seq<(string, string)>

  datatype RequestAuthorizerEvent = RequestAuthorizerEvent(headers: Option<Headers>, methodArn: string)

  datatype Statement = Statement(action: string, effect: string, resource: string)

  datatype PolicyDocument = PolicyDocument(statements: seq<Statement>, version: string)

  datatype AuthorizerResult =
    AuthorizerResult(policyDocument: PolicyDocument, principalId: string, usageIdentifierKey: Option<string>)

  const ApiKeyHeaderName: string := "clientId"

  /** `apiKeyHeaderNameActualCase.toLowerCase()`. */
  const ApiKeyHeaderNameLowerCase: string := "clientid"

  lemma ApiKeyHeaderNameLowered()
    ensures ToLower(ApiKeyHeaderName) == ApiKeyHeaderNameLowerCase
  {
    assert ToLower(ApiKeyHeaderName)[0] == 'c';
  }

  predicate IsApiKeyHeader(name: string) {
    ToLower(name) == ApiKeyHeaderNameLowerCase
  }

  /** The value of the first header named `clientId` in any letter case. */
  function FirstApiKey(headers: Headers): (r: Option<string>)
    ensures r.None? <==> forall i :: 0 <= i < |headers| ==> !IsApiKeyHeader(headers[i].0)
    ensures r.Some? ==>
              exists i :: 0 <= i < |headers| && IsApiKeyHeader(headers[i].0) && headers[i].1 == r.value &&
                forall j :: 0 <= j < i ==> !IsApiKeyHeader(headers[j].0)
    decreases |headers|
  {
    if headers == [] then None
    else if IsApiKeyHeader(headers[0].0) then Some(headers[0].1)
    else
      assert forall j :: 1 <= j < |headers| ==> headers[j] == headers[1..][j - 1];
      FirstApiKey(headers[1..])
  }

  /** Header names that differ only in letter case find the same key. */
  lemma {:induction false} FirstApiKeyIgnoresCase(headers: Headers, renamed: Headers)
    requires |headers| == |renamed|
    requires forall i :: 0 <= i < |headers| ==>
               ToLower(headers[i].0) == ToLower(renamed[i].0) && headers[i].1 == renamed[i].1
    ensures FirstApiKey(headers) == FirstApiKey(renamed)
    decreases |headers|
  {
    if headers != [] {
      FirstApiKeyIgnoresCase(headers[1..], renamed[1..]);
    }
  }

  /** Any spelling of the name is found: `CLIENTID`, `clientid` and `ClientId` alike. */
  lemma ApiKeySpellings(value: string, rest: Headers)
    ensures FirstApiKey([("CLIENTID", value)] + rest) == Some(value)
    ensures FirstApiKey([("clientid", value)] + rest) == Some(value)
    ensures FirstApiKey([("ClientId", value)] + rest) == Some(value)
  {
    UpperCaseSpelling();
    LowerCaseSpelling();
    MixedCaseSpelling();
    FoundAtHead("CLIENTID", value, rest);
    FoundAtHead("clientid", value, rest);
    FoundAtHead("ClientId", value, rest);
  }

  lemma UpperCaseSpelling()
    ensures IsApiKeyHeader("CLIENTID")
  {
    LowersTo("CLIENTID", "clientid");
  }

  lemma LowerCaseSpelling()
    ensures IsApiKeyHeader("clientid")
  {
    LowersTo("clientid", "clientid");
  }

  lemma MixedCaseSpelling()
    ensures IsApiKeyHeader("ClientId")
  {
    LowersTo("ClientId", "clientid");
  }

  lemma FoundAtHead(name: string, value: string, rest: Headers)
    requires IsApiKeyHeader(name)
    ensures FirstApiKey([(name, value)] + rest) == Some(value)
  {
  }

  /** The header loop: visits the headers in order and stops at the first match. */
  method FindApiKey(headers: Option<Headers>) returns (value: Option<string>)
    ensures headers.None? ==> value.None?
    ensures headers.Some? ==> value == FirstApiKey(headers.value)
  {
    value := None;
    if headers.None? {
      return;
    }
    var hs := headers.value;
    var i := 0;
    while i < |hs|
      invariant 0 <= i <= |hs|
      invariant FirstApiKey(hs) == FirstApiKey(hs[i..])
      invariant value.None?
    {
      assert hs[i..] == [hs[i]] + hs[i + 1..];
      if IsApiKeyHeader(hs[i].0) {
        value := Some(hs[i].1);
        break;
      }
      i := i + 1;
    }
    if value.None? {
      assert hs[i..] == [];
    }
  }

  /** `handler`: one `Allow` statement for `execute-api:Invoke` on the called method, whatever the
      request carries. */
  method Handler(event: RequestAuthorizerEvent) returns (result: AuthorizerResult)
    ensures |result.policyDocument.statements| == 1
    ensures forall s :: s in result.policyDocument.statements ==>
              s.effect == "Allow" && s.action == "execute-api:Invoke" && s.resource == event.methodArn
    ensures result.policyDocument.version == "2012-10-17"
    ensures result.principalId == "clientId-principal"
    ensures event.headers.None? ==> result.usageIdentifierKey.None?
    ensures event.headers.Some? ==> result.usageIdentifierKey == FirstApiKey(event.headers.value)
  {
    var key := FindApiKey(event.headers);
    result := AuthorizerResult(
      PolicyDocument([Statement("execute-api:Invoke", "Allow", event.methodArn)], "2012-10-17"),
      ApiKeyHeaderName + "-principal",
      key);
  }
}
