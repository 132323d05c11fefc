/** The authentication configuration as clients of the API send and receive it. A nil pointer or slice
    is None. */
module ApiTypes {
  import opened Wrappers

  type Slice<+T> = Option<seq<T>>

  datatype PrefixedClaimOrExpression =
    PrefixedClaimOrExpression(claim: Option<string>, expression: Option<string>, prefix: Option<string>)
  datatype ClaimOrExpression = ClaimOrExpression(claim: Option<string>, expression: Option<string>)
  datatype ExtraMapping = ExtraMapping(key: string, valueExpression: string)
  datatype ClaimValidationRule =
    ClaimValidationRule(claim: Option<string>, expression: Option<string>, message: Option<string>,
                        requiredValue: Option<string>)
  datatype UserValidationRule = UserValidationRule(expression: string, message: Option<string>)
  datatype Issuer = Issuer(audienceMatchPolicy: Option<string>, audiences: Slice<string>,
                           certificateAuthority: Option<string>,
                           discoveryURL: Option<string>, egressSelectorType: Option<string>, url: string)
  datatype ClaimMappings =
    ClaimMappings(extra: Option<Slice<ExtraMapping>>, groups: Option<PrefixedClaimOrExpression>,
                  uid: Option<ClaimOrExpression>, username: PrefixedClaimOrExpression)
  datatype JwtAuthenticator =
    JwtAuthenticator(claimMappings: ClaimMappings, claimValidationRules: Option<Slice<ClaimValidationRule>>,
                     issuer: Issuer, userValidationRules: Option<Slice<UserValidationRule>>)
  datatype AnonymousAuthCondition = AnonymousAuthCondition(path: Option<string>)
  datatype AnonymousAuthConfig = AnonymousAuthConfig(conditions: Option<Slice<AnonymousAuthCondition>>,
                                                     enabled: Option<bool>)
  datatype Configuration = Configuration(anonymous: Option<AnonymousAuthConfig>, jwt: Slice<JwtAuthenticator>)
}

/** The same configuration as the Kubernetes API server reads it, where absent strings are empty. */
module KubeTypes {
  import opened Wrappers

  type Slice<+T> = Option<seq<T>>

  datatype PrefixedClaimOrExpression = PrefixedClaimOrExpression(claim: string, prefix: Option<string>,
                                                                 expression: string)
  datatype ClaimOrExpression = ClaimOrExpression(claim: string, expression: string)
  datatype ExtraMapping = ExtraMapping(key: string, valueExpression: string)
  datatype ClaimValidationRule = ClaimValidationRule(claim: string, requiredValue: string, expression: string,
                                                     message: string)
  datatype UserValidationRule = UserValidationRule(expression: string, message: string)
  datatype Issuer = Issuer(url: string, discoveryURL: Option<string>, certificateAuthority: string,
                           audiences: Slice<string>,
                           audienceMatchPolicy: string, egressSelectorType: string)
  datatype ClaimMappings =
    ClaimMappings(username: PrefixedClaimOrExpression, groups: PrefixedClaimOrExpression,
                  uid: ClaimOrExpression, extra: Slice<ExtraMapping>)
  datatype JWTAuthenticator =
    JWTAuthenticator(issuer: Issuer, claimValidationRules: Slice<ClaimValidationRule>,
                     claimMappings: ClaimMappings, userValidationRules: Slice<UserValidationRule>)
  datatype AnonymousAuthCondition = AnonymousAuthCondition(path: string)
  datatype AnonymousAuthConfig = AnonymousAuthConfig(enabled: bool, conditions: Slice<AnonymousAuthCondition>)
  datatype TypeMeta = TypeMeta(kind: string, apiVersion: string)
  datatype Configuration = Configuration(typeMeta: TypeMeta, jwt: Slice<JWTAuthenticator>,
                                         anonymous: Option<AnonymousAuthConfig>)
}

/** Field errors with the path of the field they blame. */
module FieldErrors {
  import opened Wrappers

  datatype Path = Root(name: string) | Child(parent: Path, name: string) | Index(parent: Path, index: nat)

  datatype Reason =
    | Duplicate | Required | SameAsURL
    | ClaimAndExpression | ClaimWithoutPrefix | ClaimWithoutRequiredValue
    | ClaimExpressionMessage | ExpressionClaimRequiredValue | MessageClaimRequiredValue | RequiredValueExpressionMessage

  datatype FieldError = FieldError(path: Path, reason: Reason)

  class ErrorList {
    var items: seq<FieldError>

    constructor ()
      ensures items == []
    {
      items := [];
    }
  }

  /** Appends, unless there is no list to append to. */
  method Add(errs: ErrorList?, err: FieldError)
    modifies errs
    ensures errs != null ==> errs.items == old(errs.items) + [err]
  {
    if errs == null {
      return;
    }
    errs.items := errs.items + [err];
  }
}
