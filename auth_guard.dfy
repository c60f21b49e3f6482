/**
  The role gate `AuthGuard.canActivate`: an endpoint with a non-empty role
  list admits a request only when its bearer token verifies and the user the
  token names is found in the directory with one of the listed types.

  The collaborators are parameters: `verify` stands for `jwt.verify` with the
  signing secret (signature and expiry checking happen inside it), and
  `findUser` stands for the directory lookup by id.
 */
module AuthGuard {
  import opened UserModel
  import opened BearerToken
  import opened Wrappers

  /** The claims the gate reads from a verified token; there is no role among them. */
  datatype Payload = Payload(id: int, name: string, iat: int, exp: int)

  /** What `jwt.verify` does: return the decoded claims, or throw. */
  datatype VerifyOutcome = Decoded(payload: Payload) | Rejected

  /** What the directory lookup by id does: find a user, find none, or throw. */
  datatype Lookup = Found(user: User) | NotFound | Raised

  /**
    `reflector.getAllAndOverride(key, targets)`: the metadata of the first
    target on which it is defined, or undefined when it is defined on none.
   */
  function GetAllAndOverride(targets: seq<Option<seq<UserType>>>): (r: Option<seq<UserType>>)
    ensures r.None? <==> forall k :: 0 <= k < |targets| ==> targets[k].None?
    ensures forall k :: 0 <= k < |targets| && targets[k].Some? && (forall j :: 0 <= j < k ==> targets[j].None?) ==>
      r == targets[k]
  {
    if targets == [] then None
    else if targets[0].Some? then targets[0]
    else GetAllAndOverride(targets[1..])
  }

  /**
    The roles of an endpoint: `getAllAndOverride('roles', [handler, class])`,
    so a handler's list, even an empty one, overrides the class's.
   */
  function RolesFor(handlerRoles: Option<seq<UserType>>, classRoles: Option<seq<UserType>>): Option<seq<UserType>>
  {
    GetAllAndOverride([handlerRoles, classRoles])
  }

  /** `roles?.length` is truthy: the endpoint is protected. */
  predicate Protected(roles: Option<seq<UserType>>)
  {
    roles.Some? && |roles.value| > 0
  }

  /**
    The decision of `canActivate`. Every path inside the try block that
    throws (verification, the lookup) ends in `false`; nothing propagates.
   */
  function CanActivate(
    handlerRoles: Option<seq<UserType>>,
    classRoles: Option<seq<UserType>>,
    authorization: Option<string>,
    verify: Option<string> -> VerifyOutcome,
    findUser: int -> Lookup): (allowed: bool)
    ensures allowed && Protected(RolesFor(handlerRoles, classRoles)) ==>
      var outcome := verify(ExtractToken(authorization));
      && outcome.Decoded?
      && findUser(outcome.payload.id).Found?
      && findUser(outcome.payload.id).user.userType in RolesFor(handlerRoles, classRoles).value
  {
    var roles := RolesFor(handlerRoles, classRoles);
    if Protected(roles) then
      var token := ExtractToken(authorization);
      match verify(token)
      case Rejected => false
      case Decoded(payload) =>
        match findUser(payload.id)
        case Raised => false
        case NotFound => false
        case Found(user) => user.userType in roles.value
    else
      true
  }

  // ---------------------------------------------------------------------------
  // The decision, branch by branch

  /** An endpoint without roles is open, whatever the credentials and collaborators. */
  lemma PublicIgnoresCredentials(
    handlerRoles: Option<seq<UserType>>, classRoles: Option<seq<UserType>>,
    auth1: Option<string>, verify1: Option<string> -> VerifyOutcome, findUser1: int -> Lookup,
    auth2: Option<string>, verify2: Option<string> -> VerifyOutcome, findUser2: int -> Lookup)
    requires !Protected(RolesFor(handlerRoles, classRoles))
    ensures CanActivate(handlerRoles, classRoles, auth1, verify1, findUser1)
    ensures CanActivate(handlerRoles, classRoles, auth2, verify2, findUser2)
  {
  }

  /** Roles defined on the handler decide alone: the class's metadata is then ignored. */
  lemma HandlerRolesIgnoreClass(
    handlerRoles: Option<seq<UserType>>, classRoles1: Option<seq<UserType>>, classRoles2: Option<seq<UserType>>,
    authorization: Option<string>, verify: Option<string> -> VerifyOutcome, findUser: int -> Lookup)
    requires handlerRoles.Some?
    ensures CanActivate(handlerRoles, classRoles1, authorization, verify, findUser)
        == CanActivate(handlerRoles, classRoles2, authorization, verify, findUser)
  {
    assert RolesFor(handlerRoles, classRoles1) == handlerRoles == RolesFor(handlerRoles, classRoles2);
  }

  /** Without handler metadata, the class's roles act as if they were the handler's. */
  lemma ClassRolesWhenHandlerUndefined(
    classRoles: Option<seq<UserType>>,
    authorization: Option<string>, verify: Option<string> -> VerifyOutcome, findUser: int -> Lookup)
    ensures CanActivate(None, classRoles, authorization, verify, findUser)
        == CanActivate(classRoles, None, authorization, verify, findUser)
  {
    var targets: seq<Option<seq<UserType>>> := [None, classRoles];
    assert targets[0].None? && targets[1] == classRoles;
    assert RolesFor(None, classRoles) == classRoles;
    assert RolesFor(classRoles, None) == classRoles;
  }

  /** A handler's empty role list makes the endpoint open even when its class lists roles. */
  lemma EmptyHandlerRolesOverrideClass(
    classRoles: Option<seq<UserType>>, authorization: Option<string>,
    verify: Option<string> -> VerifyOutcome, findUser: int -> Lookup)
    ensures CanActivate(Some([]), classRoles, authorization, verify, findUser)
  {
  }

  /** A failed verification denies, and the directory is not consulted. */
  lemma RejectedTokenDenied(
    handlerRoles: Option<seq<UserType>>, classRoles: Option<seq<UserType>>,
    authorization: Option<string>, verify: Option<string> -> VerifyOutcome,
    findUser1: int -> Lookup, findUser2: int -> Lookup)
    requires Protected(RolesFor(handlerRoles, classRoles))
    requires verify(ExtractToken(authorization)).Rejected?
    ensures !CanActivate(handlerRoles, classRoles, authorization, verify, findUser1)
    ensures !CanActivate(handlerRoles, classRoles, authorization, verify, findUser2)
  {
  }

  /**
    A `verify` that rejects an undefined token (as `jwt.verify` does) denies
    every request whose header is absent or has no "Bearer " in it.
   */
  lemma MissingBearerDenied(
    handlerRoles: Option<seq<UserType>>, classRoles: Option<seq<UserType>>,
    authorization: Option<string>, verify: Option<string> -> VerifyOutcome, findUser: int -> Lookup)
    requires Protected(RolesFor(handlerRoles, classRoles))
    requires verify(None).Rejected?
    requires authorization.None? || !Occurs(authorization.value, Bearer)
    ensures !CanActivate(handlerRoles, classRoles, authorization, verify, findUser)
  {
    NoBearerNoToken(authorization);
  }

  /** A verified token whose user is missing, or whose lookup throws, is denied. */
  lemma UnknownUserDenied(
    handlerRoles: Option<seq<UserType>>, classRoles: Option<seq<UserType>>,
    authorization: Option<string>, verify: Option<string> -> VerifyOutcome, findUser: int -> Lookup)
    requires Protected(RolesFor(handlerRoles, classRoles))
    requires verify(ExtractToken(authorization)).Decoded?
    requires !findUser(verify(ExtractToken(authorization)).payload.id).Found?
    ensures !CanActivate(handlerRoles, classRoles, authorization, verify, findUser)
  {
  }

  /**
    A verified token whose user is found is admitted exactly when the
    directory's type for that user is among the roles.
   */
  lemma FoundUserDecidedByDirectoryRole(
    handlerRoles: Option<seq<UserType>>, classRoles: Option<seq<UserType>>,
    authorization: Option<string>, verify: Option<string> -> VerifyOutcome, findUser: int -> Lookup,
    user: User)
    requires Protected(RolesFor(handlerRoles, classRoles))
    requires verify(ExtractToken(authorization)).Decoded?
    requires findUser(verify(ExtractToken(authorization)).payload.id) == Found(user)
    ensures CanActivate(handlerRoles, classRoles, authorization, verify, findUser)
        <==> user.userType in RolesFor(handlerRoles, classRoles).value
  {
  }

  /**
    Only the id of the payload matters: two verifications that yield claims
    with the same id (any name, iat, exp) lead to the same decision.
   */
  lemma OnlyPayloadIdMatters(
    handlerRoles: Option<seq<UserType>>, classRoles: Option<seq<UserType>>,
    authorization: Option<string>, verify1: Option<string> -> VerifyOutcome,
    verify2: Option<string> -> VerifyOutcome, findUser: int -> Lookup)
    requires verify1(ExtractToken(authorization)).Decoded?
    requires verify2(ExtractToken(authorization)).Decoded?
    requires verify1(ExtractToken(authorization)).payload.id == verify2(ExtractToken(authorization)).payload.id
    ensures CanActivate(handlerRoles, classRoles, authorization, verify1, findUser)
        == CanActivate(handlerRoles, classRoles, authorization, verify2, findUser)
  {
  }

  /**
    The decision depends on the header only through the extracted token: two
    headers with the same text between the first two "Bearer " decide alike.
   */
  lemma OnlyTokenMatters(
    handlerRoles: Option<seq<UserType>>, classRoles: Option<seq<UserType>>,
    auth1: Option<string>, auth2: Option<string>,
    verify: Option<string> -> VerifyOutcome, findUser: int -> Lookup)
    requires ExtractToken(auth1) == ExtractToken(auth2)
    ensures CanActivate(handlerRoles, classRoles, auth1, verify, findUser)
        == CanActivate(handlerRoles, classRoles, auth2, verify, findUser)
  {
  }

  /**
    End to end: a buyer calling an endpoint for realtors is denied, and a
    realtor is admitted, with a header `Bearer <token>`.
   */
  lemma BuyerDeniedRealtorAdmitted(
    token: string, verify: Option<string> -> VerifyOutcome, findUser: int -> Lookup, user: User)
    requires !Occurs(token, Bearer)
    requires verify(Some(token)).Decoded?
    requires findUser(verify(Some(token)).payload.id) == Found(user)
    ensures user.userType == BUYER ==>
      !CanActivate(Some([REALTOR]), None, Some(Bearer + token), verify, findUser)
    ensures user.userType == REALTOR ==>
      CanActivate(Some([REALTOR]), None, Some(Bearer + token), verify, findUser)
  {
    var h := Bearer + token;
    assert h[..|Bearer|] == Bearer;
    assert h[|Bearer|..] == token;
    forall j | |Bearer| <= j < |h| ensures !OccursAt(h, Bearer, j) {
      if OccursAt(h, Bearer, j) {
        assert h[|Bearer|..][j - |Bearer|..j] == h[j..j + |Bearer|];
        assert OccursAt(token, Bearer, j - |Bearer|);
      }
    }
    TokenIsSecondPiece(h, 0, |h|);
    assert ExtractToken(Some(h)) == Some(token) by {
      assert h[|Bearer|..|h|] == token;
    }
  }
}
