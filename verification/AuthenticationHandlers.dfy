/** The functions of internal/api/v1/handlers/clusters.go with their loops and their shared error list. */
module AuthenticationHandlers {
  import opened Wrappers
  import A = ApiTypes
  import K = KubeTypes
  import opened FieldErrors
  import opened AuthenticationConfig

  method Popcount(values: seq<string>) returns (c: nat)
    ensures c == NonEmpty(values)
  {
    c := 0;
    for i := 0 to |values|
      invariant c == NonEmpty(values[..i])
    {
      assert values[..i + 1][..i] == values[..i];
      if values[i] == "" {
        continue;
      }
      c := c + 1;
    }
    assert values[..|values|] == values;
  }

  method AddWhen(condition: bool, path: Path, reason: Reason, errs: ErrorList?)
    modifies errs
    ensures Appended(errs, old(Items(errs)), When(condition, path, reason))
  {
    if condition {
      Add(errs, FieldError(path, reason));
    }
  }

  lemma Sum2<T>(x: seq<T>, a: seq<T>, b: seq<T>)
    ensures x + a + b == x + (a + b)
  {
  }

  lemma Sum3<T>(x: seq<T>, a: seq<T>, b: seq<T>, c: seq<T>)
    ensures x + a + b + c == x + (a + b + c)
  {
  }

  lemma Sum4<T>(x: seq<T>, a: seq<T>, b: seq<T>, c: seq<T>, d: seq<T>)
    ensures x + a + b + c + d == x + (a + b + c + d)
  {
    Sum3(x, a, b, c);
    Sum2(x, a + b + c, d);
  }

  lemma Sum5<T>(x: seq<T>, a: seq<T>, b: seq<T>, c: seq<T>, d: seq<T>, e: seq<T>)
    ensures x + a + b + c + d + e == x + (a + b + c + d + e)
  {
    Sum3(x, a, b, c);
    Sum3(x, a + b + c, d, e);
    Sum2(a + b + c, d, e);
  }

  // ---------- printing ----------

  method ToExtraMapping(value: K.Slice<K.ExtraMapping>) returns (r: Option<A.Slice<A.ExtraMapping>>)
    ensures r == Pointer(MapSlice(ToExtra, value))
  {
    if value == None {
      return None;
    }
    var result := seq(|value.value|, _ => A.ExtraMapping("", ""));
    for i := 0 to |result|
      invariant result == Map(ToExtra, value.value)
    {
      var e := result[i];
      result := result[i := A.ExtraMapping(e.key, e.valueExpression)];
    }
    r := Some(Some(result));
  }

  method ToUserValidationRules(value: K.Slice<K.UserValidationRule>) returns (r: Option<A.Slice<A.UserValidationRule>>)
    ensures r == Pointer(MapSlice(ToUserRule, value))
  {
    if value == None {
      return None;
    }
    var result := seq(|value.value|, _ => A.UserValidationRule("", None));
    for i := 0 to |result|
      invariant result == Map(ToUserRule, value.value)
    {
      var e := result[i];
      result := result[i := A.UserValidationRule(e.expression, e.message)];
    }
    r := Some(Some(result));
  }

  method ToClaimValidationRules(value: K.Slice<K.ClaimValidationRule>)
    returns (r: Option<A.Slice<A.ClaimValidationRule>>)
    ensures r == Pointer(MapSlice(ToRule, value))
  {
    if value == None {
      return None;
    }
    var result := [];
    for i := 0 to |value.value|
      invariant result == Map(ToRule, value.value[..i])
    {
      var e := value.value[i];
      result := result + [A.ClaimValidationRule(ToString(e.claim), ToString(e.expression), ToString(e.message),
                                                ToString(e.requiredValue))];
    }
    assert value.value[..|value.value|] == value.value;
    r := Some(Some(result));
  }

  method ToAnonymousAuthConditions(value: K.Slice<K.AnonymousAuthCondition>)
    returns (r: Option<A.Slice<A.AnonymousAuthCondition>>)
    ensures r == Pointer(MapSlice(ToCondition, value))
  {
    if value == None {
      return None;
    }
    var result := [];
    for i := 0 to |value.value|
      invariant result == Map(ToCondition, value.value[..i])
    {
      result := result + [A.AnonymousAuthCondition(ToString(value.value[i].path))];
    }
    assert value.value[..|value.value|] == value.value;
    r := Some(Some(result));
  }

  method ToJwtAuthenticator(value: K.Slice<K.JWTAuthenticator>) returns (r: A.Slice<A.JwtAuthenticator>)
    ensures r == MapSlice(ToJwt, value)
  {
    if value == None {
      return None;
    }
    var result := [];
    for i := 0 to |value.value|
      invariant result == Map(ToJwt, value.value[..i])
    {
      var e := value.value[i];
      var extra := ToExtraMapping(e.claimMappings.extra);
      var mappings := A.ClaimMappings(extra, ToPrefixed(e.claimMappings.groups), ToClaim(e.claimMappings.uid),
                                      ToPrefixed(e.claimMappings.username).GetOr(NO_PREFIXED));
      var rules := ToClaimValidationRules(e.claimValidationRules);
      var userRules := ToUserValidationRules(e.userValidationRules);
      result := result + [A.JwtAuthenticator(mappings, rules, ToIssuer(e.issuer), userRules)];
    }
    assert value.value[..|value.value|] == value.value;
    r := Some(result);
  }

  method ToAuthenticationConfiguration(value: Option<K.Configuration>) returns (r: Option<A.Configuration>)
    ensures r == ToConfiguration(value)
  {
    if value == None {
      return None;
    }
    var anonymous: Option<A.AnonymousAuthConfig> := None;
    if value.value.anonymous.Some? {
      var conditions := ToAnonymousAuthConditions(value.value.anonymous.value.conditions);
      anonymous := Some(A.AnonymousAuthConfig(conditions, Some(value.value.anonymous.value.enabled)));
    }
    var jwt := ToJwtAuthenticator(value.value.jwt);
    r := Some(A.Configuration(anonymous, jwt));
  }

  // ---------- parsing ----------

  method ParsePrefixed(value: A.PrefixedClaimOrExpression, path: Path, errs: ErrorList?)
    returns (r: K.PrefixedClaimOrExpression)
    modifies errs
    ensures r == ParsedPrefixed(value)
    ensures Appended(errs, old(Items(errs)), PrefixedErrors(value, path))
  {
    var claim, expression, prefix := Deref(value.claim), Deref(value.expression), value.prefix;
    var count := Popcount([claim, expression]);
    if count > 1 {
      Add(errs, FieldError(path, ClaimAndExpression));
    }
    if claim != "" && prefix == None {
      Add(errs, FieldError(path, ClaimWithoutPrefix));
    }
    r := K.PrefixedClaimOrExpression(claim, prefix, expression);
  }

  method ParseClaim(value: A.ClaimOrExpression, path: Path, errs: ErrorList?) returns (r: K.ClaimOrExpression)
    modifies errs
    ensures r == ParsedClaim(value)
    ensures Appended(errs, old(Items(errs)), ClaimErrors(value, path))
  {
    var claim, expression := Deref(value.claim), Deref(value.expression);
    var count := Popcount([claim, expression]);
    if count > 1 {
      Add(errs, FieldError(path, ClaimAndExpression));
    }
    r := K.ClaimOrExpression(claim, expression);
  }

  method ParseIssuer(value: A.Issuer, path: Path, errs: ErrorList?) returns (r: K.Issuer)
    modifies errs
    ensures r == ParsedIssuer(value)
    ensures Appended(errs, old(Items(errs)), IssuerErrors(value, path))
  {
    if value.discoveryURL.Some? && value.url == value.discoveryURL.value {
      Add(errs, FieldError(Child(path, "discovery_url"), SameAsURL));
    }
    var audiences := value.audiences.GetOr([]);
    ghost var before := Items(errs);
    for i := 0 to |audiences|
      invariant Appended(errs, before, AudienceErrors(audiences[..i], Child(path, "audiences")))
    {
      assert audiences[..i + 1][..i] == audiences[..i];
      if audiences[i] == "" {
        Add(errs, FieldError(Index(Child(path, "audiences"), i), Required));
      }
    }
    assert audiences[..|audiences|] == audiences;
    r := K.Issuer(value.url, value.discoveryURL, Deref(value.certificateAuthority), value.audiences,
                  Deref(value.audienceMatchPolicy), Deref(value.egressSelectorType));
  }

  method ParseRule(e: A.ClaimValidationRule, p: Path, errs: ErrorList?) returns (r: K.ClaimValidationRule)
    modifies errs
    ensures r == ParsedRule(e)
    ensures Appended(errs, old(Items(errs)), RuleErrors(e, p))
  {
    hide NonEmpty, When;
    var claim, requiredValue, expression, message :=
      Deref(e.claim), Deref(e.requiredValue), Deref(e.requiredValue), Deref(e.message);
    var count1 := Popcount([claim, expression, message]);
    AddWhen(count1 > 1, p, ClaimExpressionMessage, errs);
    var count2 := Popcount([expression, claim, requiredValue]);
    AddWhen(count2 > 1, p, ExpressionClaimRequiredValue, errs);
    var count3 := Popcount([message, claim, requiredValue]);
    AddWhen(count3 > 1, p, MessageClaimRequiredValue, errs);
    var count4 := Popcount([requiredValue, expression, message]);
    AddWhen(count4 > 1, p, RequiredValueExpressionMessage, errs);
    AddWhen(requiredValue == "" && claim != "", p, ClaimWithoutRequiredValue, errs);
    Sum5(old(Items(errs)), When(count1 > 1, p, ClaimExpressionMessage),
         When(count2 > 1, p, ExpressionClaimRequiredValue),
         When(count3 > 1, p, MessageClaimRequiredValue), When(count4 > 1, p, RequiredValueExpressionMessage),
         When(requiredValue == "" && claim != "", p, ClaimWithoutRequiredValue));
    r := K.ClaimValidationRule(claim, requiredValue, expression, message);
  }

  lemma NextRule(rules: seq<A.ClaimValidationRule>, i: nat, path: Path)
    requires i < |rules|
    ensures RulesErrors(rules[..i + 1], path) == RulesErrors(rules[..i], path) + RuleErrors(rules[i], Index(path, i))
    ensures Map(ParsedRule, rules[..i + 1]) == Map(ParsedRule, rules[..i]) + [ParsedRule(rules[i])]
  {
    hide RuleErrors, ParsedRule;
    assert rules[..i + 1][..i] == rules[..i];
  }

  method ParseClaimValidationRules(value: Option<A.Slice<A.ClaimValidationRule>>, path: Path, errs: ErrorList?)
    returns (r: K.Slice<K.ClaimValidationRule>)
    modifies errs
    ensures r == MapSlice(ParsedRule, Flatten(value))
    ensures Appended(errs, old(Items(errs)), RulesErrors(Flatten(value).GetOr([]), path))
  {
    if value == None || value.value == None {
      return None;
    }
    var rules, result := value.value.value, [];
    assert rules[..0] == [] && RulesErrors(rules[..0], path) == [];
    hide RuleErrors, ParsedRule, RulesErrors;
    for i := 0 to |rules|
      invariant result == Map(ParsedRule, rules[..i])
      invariant Appended(errs, old(Items(errs)), RulesErrors(rules[..i], path))
    {
      NextRule(rules, i, path);
      Sum2(old(Items(errs)), RulesErrors(rules[..i], path), RuleErrors(rules[i], Index(path, i)));
      hide Map;
      var rule := ParseRule(rules[i], Index(path, i), errs);
      result := result + [rule];
    }
    assert rules[..|rules|] == rules;
    r := Some(result);
  }

  /** The loop reads the entries of the slice it has just made. Their keys are empty, so the check that
      a key is in lower case, which comes first in the source, never fails and is left out. */
  method ParseExtraMapping(value: Option<A.Slice<A.ExtraMapping>>, path: Path, errs: ErrorList?)
    returns (r: K.Slice<K.ExtraMapping>)
    modifies errs
    ensures r == MapSlice(ParsedExtra, Flatten(value))
    ensures Appended(errs, old(Items(errs)), ExtraErrors(|Flatten(value).GetOr([])|, path))
  {
    if value == None || value.value == None {
      return None;
    }
    var seenBefore: set<string> := {};
    var result := seq(|value.value.value|, _ => K.ExtraMapping("", ""));
    for i := 0 to |result|
      invariant result == Map(ParsedExtra, value.value.value)
      invariant seenBefore == if i == 0 then {} else {""}
      invariant Appended(errs, old(Items(errs)), ExtraErrors(i, path))
    {
      var p, e := Index(path, i), result[i];
      if e.key in seenBefore {
        Add(errs, FieldError(Child(p, "key"), Duplicate));
      }
      seenBefore := seenBefore + {e.key};
      result := result[i := K.ExtraMapping(e.key, e.valueExpression)];
    }
    r := Some(result);
  }

  method ParseUserValidationRules(value: Option<A.Slice<A.UserValidationRule>>)
    returns (r: K.Slice<K.UserValidationRule>)
    ensures r == MapSlice(ParsedUserRule, Flatten(value))
  {
    if value == None || value.value == None {
      return None;
    }
    var rules, result := value.value.value, [];
    for i := 0 to |rules|
      invariant result == Map(ParsedUserRule, rules[..i])
    {
      result := result + [K.UserValidationRule(rules[i].expression, Deref(rules[i].message))];
    }
    assert rules[..|rules|] == rules;
    r := Some(result);
  }

  method ParseClaimMappings(value: A.ClaimMappings, path: Path, errs: ErrorList?) returns (r: K.ClaimMappings)
    modifies errs
    ensures r == ParsedMappings(value)
    ensures Appended(errs, old(Items(errs)), MappingsErrors(value, path))
  {
    hide PrefixedErrors, ClaimErrors, ExtraErrors, ParsedPrefixed, ParsedClaim, MapSlice, Flatten;
    ghost var userErrors := PrefixedErrors(value.username, Child(path, "username"));
    ghost var groupErrors := PrefixedErrors(value.groups.GetOr(NO_PREFIXED), Child(path, "groups"));
    ghost var uidErrors := ClaimErrors(value.uid.GetOr(NO_CLAIM), Child(path, "uid"));
    Sum4(Items(errs), userErrors, groupErrors, uidErrors,
         ExtraErrors(|Flatten(value.extra).GetOr([])|, Child(path, "extra")));
    var username := ParsePrefixed(value.username, Child(path, "username"), errs);
    var groups := ParsePrefixed(value.groups.GetOr(NO_PREFIXED), Child(path, "groups"), errs);
    var uid := ParseClaim(value.uid.GetOr(NO_CLAIM), Child(path, "uid"), errs);
    var extra := ParseExtraMapping(value.extra, Child(path, "extra"), errs);
    r := K.ClaimMappings(username, groups, uid, extra);
  }

  method ParseJwt(e: A.JwtAuthenticator, p: Path, errs: ErrorList?) returns (r: K.JWTAuthenticator)
    modifies errs
    ensures r == ParsedJwt(e)
    ensures Appended(errs, old(Items(errs)), JwtErrors(e, p))
  {
    hide IssuerErrors, RulesErrors, MappingsErrors, ParsedIssuer, ParsedMappings, ParsedRule, ParsedUserRule, MapSlice,
         Flatten;
    ghost var issuerErrors := IssuerErrors(e.issuer, Child(p, "issuer"));
    ghost var rulesErrors := RulesErrors(Flatten(e.claimValidationRules).GetOr([]), Child(p, "claim_validation_rules"));
    Sum3(Items(errs), issuerErrors, rulesErrors, MappingsErrors(e.claimMappings, Child(p, "claim_mappings")));
    var issuer := ParseIssuer(e.issuer, Child(p, "issuer"), errs);
    var rules := ParseClaimValidationRules(e.claimValidationRules, Child(p, "claim_validation_rules"), errs);
    var mappings := ParseClaimMappings(e.claimMappings, Child(p, "claim_mappings"), errs);
    var userRules := ParseUserValidationRules(e.userValidationRules);
    r := K.JWTAuthenticator(issuer, rules, mappings, userRules);
  }

  /** One round of the loop: the check for a repeated issuer URL, then the entry itself. */
  method ParseEntry(e: A.JwtAuthenticator, repeated: bool, p: Path, errs: ErrorList?) returns (jwt: K.JWTAuthenticator)
    modifies errs
    ensures jwt == ParsedJwt(e)
    ensures Appended(errs, old(Items(errs)), EntryErrors(e, repeated, p))
  {
    hide JwtErrors, ParsedJwt, When;
    AddWhen(repeated, Child(Child(p, "issuer"), "url"), Duplicate, errs);
    jwt := ParseJwt(e, p, errs);
    Sum2(old(Items(errs)), When(repeated, Child(Child(p, "issuer"), "url"), Duplicate), JwtErrors(e, p));
  }

  method ParseJWTAuthenticator(value: A.Slice<A.JwtAuthenticator>, path: Path, errs: ErrorList?)
    returns (r: K.Slice<K.JWTAuthenticator>)
    modifies errs
    ensures r == MapSlice(ParsedJwt, value)
    ensures Appended(errs, old(Items(errs)), JwtsErrors(value.GetOr([]), path))
  {
    if value == None {
      return None;
    }
    hide JwtErrors, JwtsErrors, ParsedJwt, When, URLs, Map;
    var urls: set<string> := {};
    var jwts, result := value.value, [];
    ghost var before, added := Items(errs), [];
    NoJwts(path);
    for i := 0 to |jwts|
      invariant urls == URLs(jwts[..i])
      invariant result == Map(ParsedJwt, jwts[..i])
      invariant added == JwtsErrors(jwts[..i], path)
      invariant Appended(errs, before, added)
    {
      var e := jwts[i];
      JwtsGrow(jwts, i, path);
      added := JwtsErrors(jwts[..i + 1], path);
      var jwt := ParseEntry(e, e.issuer.url in urls, Index(path, i), errs);
      Sum2(before, JwtsErrors(jwts[..i], path), EntryErrors(e, e.issuer.url in urls, Index(path, i)));
      urls := urls + {e.issuer.url};
      result := result + [jwt];
    }
    assert jwts[..|jwts|] == jwts;
    r := Some(result);
  }

  lemma NoJwts(path: Path)
    ensures URLs([]) == {} && JwtsErrors([], path) == [] && Map(ParsedJwt, []) == []
  {
  }

  lemma JwtsGrow(jwts: seq<A.JwtAuthenticator>, i: nat, path: Path)
    requires i < |jwts|
    ensures JwtsErrors(jwts[..i + 1], path)
         == JwtsErrors(jwts[..i], path) + EntryErrors(jwts[i], jwts[i].issuer.url in URLs(jwts[..i]), Index(path, i))
    ensures URLs(jwts[..i + 1]) == URLs(jwts[..i]) + {jwts[i].issuer.url}
    ensures Map(ParsedJwt, jwts[..i + 1]) == Map(ParsedJwt, jwts[..i]) + [ParsedJwt(jwts[i])]
  {
    hide JwtErrors, When, ParsedJwt;
    var e := jwts[i];
    assert jwts[..i + 1][..i] == jwts[..i];
    Sum2(JwtsErrors(jwts[..i], path),
         When(e.issuer.url in URLs(jwts[..i]), Child(Child(Index(path, i), "issuer"), "url"), Duplicate),
         JwtErrors(e, Index(path, i)));
    assert jwts[..i + 1][i] == e;
    forall url | url in URLs(jwts[..i]) ensures url in URLs(jwts[..i + 1]) {
      var j :| 0 <= j < i && jwts[..i][j].issuer.url == url;
      assert jwts[..i + 1][j] == jwts[j];
    }
  }

  method ParseAuthenticationConfiguration(value: Option<A.Configuration>, path: Path, errs: ErrorList?)
    returns (r: Option<K.Configuration>)
    modifies errs
    ensures r == ParsedConfiguration(value)
    ensures Appended(errs, old(Items(errs)), ConfigurationErrors(value, path))
  {
    if value == None {
      return None;
    }
    var jwt := ParseJWTAuthenticator(value.value.jwt, Child(path, "jwt"), errs);
    var anonymous: Option<K.AnonymousAuthConfig> := None;
    if value.value.anonymous.Some? {
      var conditions := ParseAnonymousAuthCondition(value.value.anonymous.value.conditions);
      anonymous := Some(K.AnonymousAuthConfig(value.value.anonymous.value.enabled.GetOr(false), conditions));
    }
    r := Some(K.Configuration(TYPE_META, jwt, anonymous));
  }

  method ParseAnonymousAuthCondition(value: Option<A.Slice<A.AnonymousAuthCondition>>)
    returns (r: K.Slice<K.AnonymousAuthCondition>)
    ensures r == MapSlice(ParsedCondition, Flatten(value))
  {
    if value == None || value.value == None {
      return None;
    }
    var conditions, result := value.value.value, [];
    for i := 0 to |conditions|
      invariant result == Map(ParsedCondition, conditions[..i])
    {
      result := result + [K.AnonymousAuthCondition(Deref(conditions[i].path))];
    }
    assert conditions[..|conditions|] == conditions;
    r := Some(result);
  }
}
