/** Properties of UploadR's controller: which claim is the owner identity,
    what the service's answers become, and who may reach which endpoint. */
module UploadRProperties {
  import opened DotNet
  import opened UploadR

  // ------------------------------------------------------- owner identity

  /** Claims of other kinds in front of the claim list never change the
      owner identity. */
  lemma {:induction false} OwnerClaimSkipsOtherKinds(other: seq<Claim>, claims: seq<Claim>)
    requires forall i | 0 <= i < |other| :: other[i].kind != NameIdentifier
    ensures OwnerClaim(other + claims) == OwnerClaim(claims)
  {
    if |other| == 0 {
      assert other + claims == claims;
    } else {
      assert (other + claims)[0] == other[0];
      assert (other + claims)[1..] == other[1..] + claims;
      OwnerClaimSkipsOtherKinds(other[1..], claims);
    }
  }

  /** Of several NameIdentifier claims, the first one wins, whatever follows. */
  lemma OwnerClaimFirstWins(other: seq<Claim>, id: string, rest: seq<Claim>)
    requires forall i | 0 <= i < |other| :: other[i].kind != NameIdentifier
    ensures OwnerClaim(other + [Claim(NameIdentifier, id)] + rest) == Some(id)
  {
    assert other + [Claim(NameIdentifier, id)] + rest == other + ([Claim(NameIdentifier, id)] + rest);
    OwnerClaimSkipsOtherKinds(other, [Claim(NameIdentifier, id)] + rest);
  }

  /** Upload and delete see the caller only through its owner claim: claims of
      other kinds (roles, names, ...) placed first do not change the result. */
  lemma UploadAndDeleteSeeOnlyOwnerClaim<F, R>(other: seq<Claim>, claims: seq<Claim>,
      files: seq<F>, password: Option<string>, filename: string,
      upload: (Option<string>, seq<F>, Option<string>) -> R,
      delete: (Option<string>, string) -> ResultCode)
    requires forall i | 0 <= i < |other| :: other[i].kind != NameIdentifier
    ensures UploadFiles(other + claims, files, password, upload) == UploadFiles(claims, files, password, upload)
    ensures DeleteUpload(other + claims, filename, delete) == DeleteUpload(claims, filename, delete)
  {
    OwnerClaimSkipsOtherKinds(other, claims);
  }

  /** A caller without any NameIdentifier claim reaches the services with a
      null owner. */
  lemma MissingClaimIsNullOwner<F, R, L>(claims: seq<Claim>, files: seq<F>, password: Option<string>,
      upload: (Option<string>, seq<F>, Option<string>) -> R, list: Option<string> -> Option<L>)
    requires forall i | 0 <= i < |claims| :: claims[i].kind != NameIdentifier
    ensures UploadFiles(claims, files, password, upload) == JsonResult(upload(None, files, password))
    ensures OwnUploads(claims, list) == UploadsListing(list(None))
  {
  }

  // ------------------------------------------------------ content retrieval

  /** For a servable answer the content endpoint's outcomes are disjoint and
      exhaustive: 200 with the service's bytes and its type as `File` formats
      it, 404, or 401. */
  lemma ContentOutcomesPartition(answer: UploadContent, format: MediaTypeFormat)
    requires Servable(answer, format)
    ensures var r := ContentResult(answer, format);
      && StatusCode(r) in {200, 401, 404}
      && (StatusCode(r) == 200 <==> |answer.content| != 0)
      && (StatusCode(r) == 200 ==> r == FileResult(answer.content, format(answer.contentType.value).value))
      && (StatusCode(r) == 404 <==> |answer.content| == 0 && IsNullOrWhiteSpace(answer.contentType))
      && (StatusCode(r) == 401 <==> |answer.content| == 0 && !IsNullOrWhiteSpace(answer.contentType))
  {
  }

  /** Query pairs under other keys placed first never change the value bound
      to `name`. */
  lemma {:induction false} FirstValueSkipsOtherKeys(other: seq<QueryPair>, query: seq<QueryPair>, name: string)
    requires forall i | 0 <= i < |other| :: !SameKey(other[i].key, name)
    ensures FirstQueryValue(other + query, name) == FirstQueryValue(query, name)
  {
    if |other| == 0 {
      assert other + query == query;
    } else {
      assert (other + query)[0] == other[0];
      assert (other + query)[1..] == other[1..] + query;
      FirstValueSkipsOtherKeys(other[1..], query, name);
    }
  }

  /** Only the `password` key matters: pairs under other keys placed first
      change neither the bound password nor the result. */
  lemma ContentSeesOnlyPassword(filename: string, other: seq<QueryPair>, query: seq<QueryPair>,
                                service: (string, Option<string>) -> UploadContent, format: MediaTypeFormat)
    requires forall i | 0 <= i < |other| :: !SameKey(other[i].key, PasswordKey)
    requires Servable(service(filename, PasswordParam(query)), format)
    ensures PasswordParam(other + query) == PasswordParam(query)
    ensures ContentDownload(filename, other + query, service, format) == ContentDownload(filename, query, service, format)
  {
    FirstValueSkipsOtherKeys(other, query, PasswordKey);
  }

  /** The first `password` pair wins whatever the letter case of its key and
      whatever follows it, when its value is not blank. */
  lemma FirstPasswordWins(key: string, v: string, rest: seq<QueryPair>)
    requires SameKey(key, PasswordKey)
    requires exists k | 0 <= k < |v| :: !IsWhiteSpace(v[k])
    ensures PasswordParam([QueryPair(key, v)] + rest) == Some(v)
  {
    assert ([QueryPair(key, v)] + rest)[0] == QueryPair(key, v);
  }

  /** For instance, `?x=1&PassWord=secret&password=other` binds "secret". */
  lemma PasswordKeyExample()
    ensures PasswordParam([QueryPair("x", "1"), QueryPair("PassWord", "secret"), QueryPair("password", "other")])
      == Some("secret")
  {
    assert SameKey("PassWord", PasswordKey);
    assert !IsWhiteSpace("secret"[0]);
    FirstValueSkipsOtherKeys([QueryPair("x", "1")], [QueryPair("PassWord", "secret"), QueryPair("password", "other")], PasswordKey);
    FirstPasswordWins("PassWord", "secret", [QueryPair("password", "other")]);
    assert [QueryPair("x", "1"), QueryPair("PassWord", "secret"), QueryPair("password", "other")]
      == [QueryPair("x", "1")] + ([QueryPair("PassWord", "secret")] + [QueryPair("password", "other")]);
  }

  /** With no `password` key, or a blank first value for it, the service is
      asked with a null password; later values for the key are not looked at. */
  lemma ContentPasswordDefaultsToNull(filename: string, query: seq<QueryPair>,
                                      service: (string, Option<string>) -> UploadContent,
                                      format: MediaTypeFormat)
    requires
      || (forall i | 0 <= i < |query| :: !SameKey(query[i].key, PasswordKey))
      || exists i | 0 <= i < |query| ::
        && SameKey(query[i].key, PasswordKey)
        && (forall k | 0 <= k < |query[i].value| :: IsWhiteSpace(query[i].value[k]))
        && forall j | 0 <= j < i :: !SameKey(query[j].key, PasswordKey)
    requires Servable(service(filename, None), format)
    ensures PasswordParam(query) == None
    ensures ContentDownload(filename, query, service, format) == ContentResult(service(filename, None), format)
  {
  }

  // --------------------------------------------------------------- tiers

  /** Content retrieval needs no credential. */
  lemma ContentNeedsNoCredential(c: Caller)
    ensures Allowed(GetContent, c)
  {
  }

  /** Listing another user's uploads needs the Admin role. */
  lemma UserListingIsAdminOnly(c: Caller)
    ensures Allowed(GetUserUploads, c) <==> c == Authenticated(true)
  {
  }

  /** Every other endpoint falls under the default (User) policy: any
      authenticated caller, and no anonymous one. */
  lemma DefaultPolicyEndpoints(e: Endpoint, c: Caller)
    requires e !in {GetUserUploads, GetContent}
    ensures Allowed(e, c) <==> c.Authenticated?
  {
  }

  /** The attributes form the tier order Unverified < User < Admin: a caller
      passes an endpoint's attribute exactly when its tier is at least the
      tier the attribute demands. */
  lemma AllowedFollowsTierOrder(e: Endpoint, c: Caller)
    ensures Allowed(e, c) <==> RequiredTier(e).Rank() <= c.Tier().Rank()
  {
  }

  /** A caller of a higher tier may reach every endpoint a lower one may. */
  lemma AllowedIsMonotone(e: Endpoint, c1: Caller, c2: Caller)
    requires c1.Tier().Rank() <= c2.Tier().Rank()
    ensures Allowed(e, c1) ==> Allowed(e, c2)
  {
    AllowedFollowsTierOrder(e, c1);
    AllowedFollowsTierOrder(e, c2);
  }
}
