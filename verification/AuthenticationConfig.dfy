/** The parser and printer pair of internal/api/v1/handlers/clusters.go: what each call returns. */
module AuthenticationConfig {
  import opened Wrappers
  import A = ApiTypes
  import K = KubeTypes
  import opened FieldErrors

  function Map<T, U>(f: T -> U, xs: seq<T>): (r: seq<U>)
    ensures |r| == |xs| && forall i :: 0 <= i < |xs| ==> r[i] == f(xs[i])
  {
    seq(|xs|, i requires 0 <= i < |xs| => f(xs[i]))
  }

  function MapSlice<T, U>(f: T -> U, slice: Option<seq<T>>): Option<seq<U>> {
    match slice
    case None => None
    case Some(xs) => Some(Map(f, xs))
  }

  /** Pointers to slices: nil pointers and pointers to nil slices both give a nil slice. */
  function Flatten<T>(p: Option<Option<T>>): Option<T> {
    p.GetOr(None)
  }

  function Deref(p: Option<string>): string {
    p.GetOr("")
  }

  function ToString(s: string): Option<string> {
    if s == "" then None else Some(s)
  }

  // ---------- printing ----------

  const ZERO_PREFIXED := K.PrefixedClaimOrExpression("", None, "")
  const ZERO_CLAIM := K.ClaimOrExpression("", "")
  const NO_PREFIXED := A.PrefixedClaimOrExpression(None, None, None)
  const NO_CLAIM := A.ClaimOrExpression(None, None)

  function ToPrefixed(v: K.PrefixedClaimOrExpression): Option<A.PrefixedClaimOrExpression> {
    if v == ZERO_PREFIXED then None
    else Some(A.PrefixedClaimOrExpression(ToString(v.claim), ToString(v.expression), v.prefix))
  }

  function ToClaim(v: K.ClaimOrExpression): Option<A.ClaimOrExpression> {
    if v == ZERO_CLAIM then None else Some(A.ClaimOrExpression(ToString(v.claim), ToString(v.expression)))
  }

  /** As printed, entries lose their contents: the source ranges over the slice it has just made. */
  function ToExtra(v: K.ExtraMapping): A.ExtraMapping {
    A.ExtraMapping("", "")
  }

  function ToUserRule(v: K.UserValidationRule): A.UserValidationRule {
    A.UserValidationRule("", None)
  }

  function ToRule(v: K.ClaimValidationRule): A.ClaimValidationRule {
    A.ClaimValidationRule(ToString(v.claim), ToString(v.expression), ToString(v.message), ToString(v.requiredValue))
  }

  function ToCondition(v: K.AnonymousAuthCondition): A.AnonymousAuthCondition {
    A.AnonymousAuthCondition(ToString(v.path))
  }

  function Pointer<T>(slice: Option<seq<T>>): Option<Option<seq<T>>> {
    if slice == None then None else Some(slice)
  }

  function ToIssuer(v: K.Issuer): A.Issuer {
    A.Issuer(ToString(v.audienceMatchPolicy), v.audiences, ToString(v.certificateAuthority), v.discoveryURL,
             ToString(v.egressSelectorType), v.url)
  }

  function ToMappings(v: K.ClaimMappings): A.ClaimMappings {
    A.ClaimMappings(Pointer(MapSlice(ToExtra, v.extra)), ToPrefixed(v.groups), ToClaim(v.uid),
                    ToPrefixed(v.username).GetOr(NO_PREFIXED))
  }

  function ToJwt(v: K.JWTAuthenticator): A.JwtAuthenticator {
    A.JwtAuthenticator(ToMappings(v.claimMappings), Pointer(MapSlice(ToRule, v.claimValidationRules)),
                       ToIssuer(v.issuer),
                       Pointer(MapSlice(ToUserRule, v.userValidationRules)))
  }

  function ToAnonymous(v: K.AnonymousAuthConfig): A.AnonymousAuthConfig {
    A.AnonymousAuthConfig(Pointer(MapSlice(ToCondition, v.conditions)), Some(v.enabled))
  }

  function ToConfiguration(v: Option<K.Configuration>): Option<A.Configuration> {
    match v
    case None => None
    case Some(c) =>
      Some(A.Configuration(if c.anonymous == None then None else Some(ToAnonymous(c.anonymous.value)),
                           MapSlice(ToJwt, c.jwt)))
  }

  // ---------- parsing: the values ----------

  const TYPE_META := K.TypeMeta("AuthenticationConfiguration", "apiserver.config.k8s.io/v1")

  function ParsedPrefixed(v: A.PrefixedClaimOrExpression): K.PrefixedClaimOrExpression {
    K.PrefixedClaimOrExpression(Deref(v.claim), v.prefix, Deref(v.expression))
  }

  function ParsedClaim(v: A.ClaimOrExpression): K.ClaimOrExpression {
    K.ClaimOrExpression(Deref(v.claim), Deref(v.expression))
  }

  /** As parsed, entries lose their contents here too. */
  function ParsedExtra(v: A.ExtraMapping): K.ExtraMapping {
    K.ExtraMapping("", "")
  }

  /** The expression is taken from the required value. */
  function ParsedRule(v: A.ClaimValidationRule): K.ClaimValidationRule {
    K.ClaimValidationRule(Deref(v.claim), Deref(v.requiredValue), Deref(v.requiredValue), Deref(v.message))
  }

  function ParsedUserRule(v: A.UserValidationRule): K.UserValidationRule {
    K.UserValidationRule(v.expression, Deref(v.message))
  }

  function ParsedCondition(v: A.AnonymousAuthCondition): K.AnonymousAuthCondition {
    K.AnonymousAuthCondition(Deref(v.path))
  }

  function ParsedIssuer(v: A.Issuer): K.Issuer {
    K.Issuer(v.url, v.discoveryURL, Deref(v.certificateAuthority), v.audiences, Deref(v.audienceMatchPolicy),
             Deref(v.egressSelectorType))
  }

  function ParsedMappings(v: A.ClaimMappings): K.ClaimMappings {
    K.ClaimMappings(ParsedPrefixed(v.username), ParsedPrefixed(v.groups.GetOr(NO_PREFIXED)),
                    ParsedClaim(v.uid.GetOr(NO_CLAIM)),
                    MapSlice(ParsedExtra, Flatten(v.extra)))
  }

  function ParsedJwt(v: A.JwtAuthenticator): K.JWTAuthenticator {
    K.JWTAuthenticator(ParsedIssuer(v.issuer), MapSlice(ParsedRule, Flatten(v.claimValidationRules)),
                       ParsedMappings(v.claimMappings),
                       MapSlice(ParsedUserRule, Flatten(v.userValidationRules)))
  }

  function ParsedAnonymous(v: A.AnonymousAuthConfig): K.AnonymousAuthConfig {
    K.AnonymousAuthConfig(v.enabled.GetOr(false), MapSlice(ParsedCondition, Flatten(v.conditions)))
  }

  function ParsedConfiguration(v: Option<A.Configuration>): Option<K.Configuration> {
    match v
    case None => None
    case Some(c) =>
      Some(K.Configuration(TYPE_META, MapSlice(ParsedJwt, c.jwt),
                           if c.anonymous == None then None else Some(ParsedAnonymous(c.anonymous.value))))
  }

  // ---------- parsing: the errors ----------

  function NonEmpty(values: seq<string>): nat {
    if values == [] then 0
    else NonEmpty(values[..|values| - 1]) + if values[|values| - 1] == "" then 0 else 1
  }

  function When(condition: bool, path: Path, reason: Reason): seq<FieldError> {
    if condition then [FieldError(path, reason)] else []
  }

  function PrefixedErrors(v: A.PrefixedClaimOrExpression, path: Path): seq<FieldError> {
    When(NonEmpty([Deref(v.claim), Deref(v.expression)]) > 1, path, ClaimAndExpression)
    + When(Deref(v.claim) != "" && v.prefix == None, path, ClaimWithoutPrefix)
  }

  function ClaimErrors(v: A.ClaimOrExpression, path: Path): seq<FieldError> {
    When(NonEmpty([Deref(v.claim), Deref(v.expression)]) > 1, path, ClaimAndExpression)
  }

  function AudienceErrors(audiences: seq<string>, path: Path): seq<FieldError> {
    if audiences == [] then []
    else
      var n := |audiences| - 1;
      AudienceErrors(audiences[..n], path) + When(audiences[n] == "", Index(path, n), Required)
  }

  function IssuerErrors(v: A.Issuer, path: Path): seq<FieldError> {
    When(v.discoveryURL == Some(v.url), Child(path, "discovery_url"), SameAsURL)
    + AudienceErrors(v.audiences.GetOr([]), Child(path, "audiences"))
  }

  function RuleErrors(v: A.ClaimValidationRule, p: Path): seq<FieldError> {
    var claim, requiredValue, expression, message :=
      Deref(v.claim), Deref(v.requiredValue), Deref(v.requiredValue), Deref(v.message);
    When(NonEmpty([claim, expression, message]) > 1, p, ClaimExpressionMessage)
    + When(NonEmpty([expression, claim, requiredValue]) > 1, p, ExpressionClaimRequiredValue)
    + When(NonEmpty([message, claim, requiredValue]) > 1, p, MessageClaimRequiredValue)
    + When(NonEmpty([requiredValue, expression, message]) > 1, p, RequiredValueExpressionMessage)
    + When(requiredValue == "" && claim != "", p, ClaimWithoutRequiredValue)
  }

  function RulesErrors(rules: seq<A.ClaimValidationRule>, path: Path): seq<FieldError> {
    if rules == [] then []
    else
      var n := |rules| - 1;
      RulesErrors(rules[..n], path) + RuleErrors(rules[n], Index(path, n))
  }

  /** Every entry but the first repeats the empty key. */
  function ExtraErrors(n: nat, path: Path): seq<FieldError> {
    if n <= 1 then [] else ExtraErrors(n - 1, path) + [FieldError(Child(Index(path, n - 1), "key"), Duplicate)]
  }

  function MappingsErrors(v: A.ClaimMappings, path: Path): seq<FieldError> {
    PrefixedErrors(v.username, Child(path, "username"))
    + PrefixedErrors(v.groups.GetOr(NO_PREFIXED), Child(path, "groups"))
    + ClaimErrors(v.uid.GetOr(NO_CLAIM), Child(path, "uid"))
    + ExtraErrors(|Flatten(v.extra).GetOr([])|, Child(path, "extra"))
  }

  function JwtErrors(v: A.JwtAuthenticator, p: Path): seq<FieldError> {
    IssuerErrors(v.issuer, Child(p, "issuer"))
    + RulesErrors(Flatten(v.claimValidationRules).GetOr([]), Child(p, "claim_validation_rules"))
    + MappingsErrors(v.claimMappings, Child(p, "claim_mappings"))
  }

  /** The errors of one entry, with that of a repeated URL. */
  function EntryErrors(e: A.JwtAuthenticator, repeated: bool, p: Path): seq<FieldError> {
    When(repeated, Child(Child(p, "issuer"), "url"), Duplicate) + JwtErrors(e, p)
  }

  ghost function URLs(jwts: seq<A.JwtAuthenticator>): set<string> {
    set j | 0 <= j < |jwts| :: jwts[j].issuer.url
  }

  ghost function JwtsErrors(jwts: seq<A.JwtAuthenticator>, path: Path): seq<FieldError> {
    if jwts == [] then []
    else
      var n := |jwts| - 1;
      var p := Index(path, n);
      JwtsErrors(jwts[..n], path) + EntryErrors(jwts[n], jwts[n].issuer.url in URLs(jwts[..n]), p)
  }

  ghost function ConfigurationErrors(v: Option<A.Configuration>, path: Path): seq<FieldError> {
    match v
    case None => []
    case Some(c) => JwtsErrors(c.jwt.GetOr([]), Child(path, "jwt"))
  }

  /** The error list after a parse, if there is one. */
  ghost predicate Appended(errs: ErrorList?, before: seq<FieldError>, added: seq<FieldError>)
    reads errs
  {
    errs != null ==> errs.items == before + added
  }

  ghost function Items(errs: ErrorList?): seq<FieldError>
    reads errs
  {
    if errs == null then [] else errs.items
  }
}
