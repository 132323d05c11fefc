/** What the pair preserves and what the parser accepts. */
module AuthenticationProperties {
  import opened Wrappers
  import A = ApiTypes
  import K = KubeTypes
  import opened FieldErrors
  import opened AuthenticationConfig

  // ---------- printed and parsed back ----------

  predicate AllExtrasZero(extras: seq<K.ExtraMapping>) {
    forall i :: 0 <= i < |extras| ==> extras[i] == K.ExtraMapping("", "")
  }

  predicate AllUserRulesZero(rules: seq<K.UserValidationRule>) {
    forall i :: 0 <= i < |rules| ==> rules[i] == K.UserValidationRule("", "")
  }

  predicate AllRulesRepeat(rules: seq<K.ClaimValidationRule>) {
    forall i :: 0 <= i < |rules| ==> rules[i].expression == rules[i].requiredValue
  }

  predicate JwtSurvives(v: K.JWTAuthenticator) {
    && AllRulesRepeat(v.claimValidationRules.GetOr([]))
    && AllExtrasZero(v.claimMappings.extra.GetOr([]))
    && AllUserRulesZero(v.userValidationRules.GetOr([]))
  }

  predicate Survives(v: K.Configuration) {
    forall i :: 0 <= i < |v.jwt.GetOr([])| ==> JwtSurvives(v.jwt.GetOr([])[i])
  }

  lemma MapsMeet<T, U>(f: T -> U, g: U -> T, xs: seq<T>)
    ensures Map(g, Map(f, xs)) == xs <==> forall i :: 0 <= i < |xs| ==> g(f(xs[i])) == xs[i]
  {
    var ys := Map(g, Map(f, xs));
    if ys == xs {
      forall i | 0 <= i < |xs| ensures g(f(xs[i])) == xs[i] {
        assert ys[i] == xs[i];
      }
    }
  }

  lemma IssuerSurvives(v: K.Issuer)
    ensures ParsedIssuer(ToIssuer(v)) == v
  {
  }

  lemma MappingsSurvive(v: K.ClaimMappings)
    ensures ParsedMappings(ToMappings(v)) == v <==> AllExtrasZero(v.extra.GetOr([]))
  {
    MapsMeet(ToExtra, ParsedExtra, v.extra.GetOr([]));
    assert ParsedPrefixed(ToPrefixed(v.groups).GetOr(NO_PREFIXED)) == v.groups;
    assert ParsedPrefixed(ToPrefixed(v.username).GetOr(NO_PREFIXED)) == v.username;
    assert ParsedClaim(ToClaim(v.uid).GetOr(NO_CLAIM)) == v.uid;
  }

  lemma RulesSurvive(v: K.Slice<K.ClaimValidationRule>)
    ensures MapSlice(ParsedRule, Flatten(Pointer(MapSlice(ToRule, v)))) == v <==> AllRulesRepeat(v.GetOr([]))
  {
    var rules := v.GetOr([]);
    MapsMeet(ToRule, ParsedRule, rules);
    forall i | 0 <= i < |rules|
      ensures ParsedRule(ToRule(rules[i])) == rules[i] <==> rules[i].expression == rules[i].requiredValue
    {
    }
  }

  lemma UserRulesSurvive(v: K.Slice<K.UserValidationRule>)
    ensures MapSlice(ParsedUserRule, Flatten(Pointer(MapSlice(ToUserRule, v)))) == v <==> AllUserRulesZero(v.GetOr([]))
  {
    MapsMeet(ToUserRule, ParsedUserRule, v.GetOr([]));
  }

  lemma JwtRoundTrip(v: K.JWTAuthenticator)
    ensures ParsedJwt(ToJwt(v)) == v <==> JwtSurvives(v)
  {
    hide MapSlice, ToMappings, ParsedMappings, ToIssuer, ParsedIssuer, Pointer, Flatten, AllRulesRepeat, AllExtrasZero,
         AllUserRulesZero;
    IssuerSurvives(v.issuer);
    MappingsSurvive(v.claimMappings);
    RulesSurvive(v.claimValidationRules);
    UserRulesSurvive(v.userValidationRules);
  }

  lemma AnonymousSurvives(v: K.AnonymousAuthConfig)
    ensures ParsedAnonymous(ToAnonymous(v)) == v
  {
    MapsMeet(ToCondition, ParsedCondition, v.conditions.GetOr([]));
  }

  /** Printing and parsing back gives the same configuration, with the type of the object filled in, if
      and only if every claim rule has its required value for its expression and every extra mapping
      and user rule is empty. */
  lemma PrintedParsesBack(v: K.Configuration)
    ensures ParsedConfiguration(ToConfiguration(Some(v))) == Some(v.(typeMeta := TYPE_META)) <==> Survives(v)
  {
    hide ToJwt, ParsedJwt, JwtSurvives, ToAnonymous, ParsedAnonymous;
    var jwts := v.jwt.GetOr([]);
    MapsMeet(ToJwt, ParsedJwt, jwts);
    forall i | 0 <= i < |jwts| ensures ParsedJwt(ToJwt(jwts[i])) == jwts[i] <==> JwtSurvives(jwts[i]) {
      JwtRoundTrip(jwts[i]);
    }
    if v.anonymous.Some? {
      AnonymousSurvives(v.anonymous.value);
    }
  }

  /** In particular for every configuration that leaves the three lists unset. */
  lemma UnsetListsParseBack(v: K.Configuration)
    requires forall i :: 0 <= i < |v.jwt.GetOr([])| ==>
      var jwt := v.jwt.GetOr([])[i];
      jwt.claimValidationRules == None && jwt.userValidationRules == None && jwt.claimMappings.extra == None
    ensures ParsedConfiguration(ToConfiguration(Some(v))) == Some(v.(typeMeta := TYPE_META))
    ensures ParsedConfiguration(ToConfiguration(None)) == None
  {
    PrintedParsesBack(v);
  }

  // ---------- parsed and printed back ----------

  /** Two values of the API mean the same if they agree once absent strings are read as empty, absent
      mappings as empty, an absent flag as false and a pointer to nil as nil. */
  ghost predicate SameString(a: Option<string>, b: Option<string>) {
    a.GetOr("") == b.GetOr("")
  }

  ghost predicate SamePrefixed(a: A.PrefixedClaimOrExpression, b: A.PrefixedClaimOrExpression) {
    SameString(a.claim, b.claim) && SameString(a.expression, b.expression) && a.prefix == b.prefix
  }

  ghost predicate SameClaim(a: A.ClaimOrExpression, b: A.ClaimOrExpression) {
    SameString(a.claim, b.claim) && SameString(a.expression, b.expression)
  }

  ghost predicate SameRule(a: A.ClaimValidationRule, b: A.ClaimValidationRule) {
    && SameString(a.claim, b.claim) && SameString(a.expression, b.expression)
    && SameString(a.message, b.message) && SameString(a.requiredValue, b.requiredValue)
  }

  ghost predicate SameUserRule(a: A.UserValidationRule, b: A.UserValidationRule) {
    a.expression == b.expression && SameString(a.message, b.message)
  }

  ghost predicate SameCondition(a: A.AnonymousAuthCondition, b: A.AnonymousAuthCondition) {
    SameString(a.path, b.path)
  }

  ghost predicate SameExtra(a: A.ExtraMapping, b: A.ExtraMapping) {
    a == b
  }

  ghost predicate SameSlice<T(!new)>(same: (T, T) -> bool, a: Option<seq<T>>, b: Option<seq<T>>) {
    || (a == None && b == None)
    || (a.Some? && b.Some? && |a.value| == |b.value| && forall i :: 0 <= i < |a.value| ==> same(a.value[i], b.value[i]))
  }

  ghost predicate SameIssuer(a: A.Issuer, b: A.Issuer) {
    && a.url == b.url && a.discoveryURL == b.discoveryURL && a.audiences == b.audiences
    && SameString(a.certificateAuthority, b.certificateAuthority)
    && SameString(a.audienceMatchPolicy, b.audienceMatchPolicy)
    && SameString(a.egressSelectorType, b.egressSelectorType)
  }

  ghost predicate SameMappings(a: A.ClaimMappings, b: A.ClaimMappings) {
    && SamePrefixed(a.username, b.username)
    && SamePrefixed(a.groups.GetOr(NO_PREFIXED), b.groups.GetOr(NO_PREFIXED))
    && SameClaim(a.uid.GetOr(NO_CLAIM), b.uid.GetOr(NO_CLAIM))
    && SameSlice(SameExtra, Flatten(a.extra), Flatten(b.extra))
  }

  ghost predicate SameJwt(a: A.JwtAuthenticator, b: A.JwtAuthenticator) {
    && SameIssuer(a.issuer, b.issuer)
    && SameMappings(a.claimMappings, b.claimMappings)
    && SameSlice(SameRule, Flatten(a.claimValidationRules), Flatten(b.claimValidationRules))
    && SameSlice(SameUserRule, Flatten(a.userValidationRules), Flatten(b.userValidationRules))
  }

  ghost predicate SameAnonymous(a: A.AnonymousAuthConfig, b: A.AnonymousAuthConfig) {
    a.enabled.GetOr(false) == b.enabled.GetOr(false)
      && SameSlice(SameCondition, Flatten(a.conditions), Flatten(b.conditions))
  }

  ghost predicate SameConfiguration(a: A.Configuration, b: A.Configuration) {
    && (a.anonymous == None <==> b.anonymous == None)
    && (a.anonymous.Some? && b.anonymous.Some? ==> SameAnonymous(a.anonymous.value, b.anonymous.value))
    && SameSlice(SameJwt, a.jwt, b.jwt)
  }

  /** What printing gives back of a parsed authenticator. */
  predicate JwtPrintsBack(v: A.JwtAuthenticator) {
    && (forall i :: 0 <= i < |Flatten(v.claimValidationRules).GetOr([])| ==>
          var rule := Flatten(v.claimValidationRules).GetOr([])[i];
          rule.expression.GetOr("") == rule.requiredValue.GetOr(""))
    && (forall i :: 0 <= i < |Flatten(v.claimMappings.extra).GetOr([])| ==>
          Flatten(v.claimMappings.extra).GetOr([])[i] == A.ExtraMapping("", ""))
    && (forall i :: 0 <= i < |Flatten(v.userValidationRules).GetOr([])| ==>
          var rule := Flatten(v.userValidationRules).GetOr([])[i];
          rule.expression == "" && rule.message.GetOr("") == "")
  }

  lemma SlicesMeet<T(!new), U>(same: (T, T) -> bool, f: T -> U, g: U -> T, v: Option<seq<T>>)
    ensures SameSlice(same, MapSlice(g, MapSlice(f, v)), v)
       <==> forall i :: 0 <= i < |v.GetOr([])| ==> same(g(f(v.GetOr([])[i])), v.GetOr([])[i])
  {
    if v.Some? {
      var xs, ys := v.value, Map(g, Map(f, v.value));
      assert MapSlice(g, MapSlice(f, v)) == Some(ys) && v.GetOr([]) == xs;
      forall i | 0 <= i < |xs| ensures ys[i] == g(f(xs[i])) {
        assert Map(f, xs)[i] == f(xs[i]);
      }
      if SameSlice(same, Some(ys), v) {
        forall i | 0 <= i < |xs| ensures same(g(f(xs[i])), xs[i]) {
          assert same(ys[i], xs[i]);
        }
      }
    }
  }

  lemma PointersFlatten<T>(v: Option<seq<T>>)
    ensures Flatten(Pointer(v)) == v
  {
  }

  lemma PrefixedPrintsBack(v: A.PrefixedClaimOrExpression)
    ensures SamePrefixed(ToPrefixed(ParsedPrefixed(v)).GetOr(NO_PREFIXED), v)
  {
  }

  lemma MappingsPrintBack(v: A.ClaimMappings)
    ensures SameMappings(ToMappings(ParsedMappings(v)), v) <==>
      forall i :: 0 <= i < |Flatten(v.extra).GetOr([])| ==> Flatten(v.extra).GetOr([])[i] == A.ExtraMapping("", "")
  {
    hide ToPrefixed, ParsedPrefixed, SamePrefixed, MapSlice, SameSlice;
    PrefixedPrintsBack(v.username);
    PrefixedPrintsBack(v.groups.GetOr(NO_PREFIXED));
    SlicesMeet(SameExtra, ParsedExtra, ToExtra, Flatten(v.extra));
    PointersFlatten(MapSlice(ToExtra, MapSlice(ParsedExtra, Flatten(v.extra))));
  }

  lemma JwtPrinted(v: A.JwtAuthenticator)
    ensures SameJwt(ToJwt(ParsedJwt(v)), v) <==> JwtPrintsBack(v)
  {
    hide ToMappings, ParsedMappings, SameMappings, MapSlice, SameSlice;
    var rules, userRules := Flatten(v.claimValidationRules), Flatten(v.userValidationRules);
    MappingsPrintBack(v.claimMappings);
    SlicesMeet(SameRule, ParsedRule, ToRule, rules);
    SlicesMeet(SameUserRule, ParsedUserRule, ToUserRule, userRules);
    PointersFlatten(MapSlice(ToRule, MapSlice(ParsedRule, rules)));
    PointersFlatten(MapSlice(ToUserRule, MapSlice(ParsedUserRule, userRules)));
  }

  lemma AnonymousPrintsBack(v: A.AnonymousAuthConfig)
    ensures SameAnonymous(ToAnonymous(ParsedAnonymous(v)), v)
  {
    hide MapSlice, SameSlice;
    SlicesMeet(SameCondition, ParsedCondition, ToCondition, Flatten(v.conditions));
    PointersFlatten(MapSlice(ToCondition, MapSlice(ParsedCondition, Flatten(v.conditions))));
  }

  /** Parsing and printing back means the same if and only if every claim rule has its required value
      for its expression and every extra mapping and user rule is empty. */
  lemma ParsedPrintsBack(v: A.Configuration)
    ensures ToConfiguration(ParsedConfiguration(Some(v))).Some?
    ensures SameConfiguration(ToConfiguration(ParsedConfiguration(Some(v))).value, v) <==>
      forall i :: 0 <= i < |v.jwt.GetOr([])| ==> JwtPrintsBack(v.jwt.GetOr([])[i])
  {
    hide ToJwt, ParsedJwt, SameJwt, JwtPrintsBack, ToAnonymous, ParsedAnonymous, SameAnonymous, MapSlice, SameSlice;
    var jwts := v.jwt.GetOr([]);
    SlicesMeet(SameJwt, ParsedJwt, ToJwt, v.jwt);
    forall i | 0 <= i < |jwts| ensures SameJwt(ToJwt(ParsedJwt(jwts[i])), jwts[i]) <==> JwtPrintsBack(jwts[i]) {
      JwtPrinted(jwts[i]);
    }
    if v.anonymous.Some? {
      AnonymousPrintsBack(v.anonymous.value);
    }
  }

  // ---------- what the parser accepts ----------

  predicate PrefixedAccepted(v: A.PrefixedClaimOrExpression) {
    Deref(v.claim) == "" || (Deref(v.expression) == "" && v.prefix.Some?)
  }

  predicate IssuerAccepted(v: A.Issuer) {
    v.discoveryURL != Some(v.url) && "" !in v.audiences.GetOr([])
  }

  predicate JwtAccepted(v: A.JwtAuthenticator) {
    && IssuerAccepted(v.issuer)
    && (forall i :: 0 <= i < |Flatten(v.claimValidationRules).GetOr([])| ==>
          var rule := Flatten(v.claimValidationRules).GetOr([])[i];
          Deref(rule.claim) == "" && Deref(rule.requiredValue) == "")
    && PrefixedAccepted(v.claimMappings.username)
    && PrefixedAccepted(v.claimMappings.groups.GetOr(NO_PREFIXED))
    && (Deref(v.claimMappings.uid.GetOr(NO_CLAIM).claim) == ""
        || Deref(v.claimMappings.uid.GetOr(NO_CLAIM).expression) == "")
    && |Flatten(v.claimMappings.extra).GetOr([])| <= 1
  }

  ghost predicate Accepted(jwts: seq<A.JwtAuthenticator>) {
    && (forall i, j :: 0 <= i < j < |jwts| ==> jwts[i].issuer.url != jwts[j].issuer.url)
    && (forall i :: 0 <= i < |jwts| ==> JwtAccepted(jwts[i]))
  }

  lemma TwoNonEmpty(a: string, b: string)
    ensures NonEmpty([a, b]) > 1 <==> a != "" && b != ""
  {
    assert [a, b][..1] == [a] && [a][..0] == [];
    assert NonEmpty([a]) == if a == "" then 0 else 1;
  }

  lemma ThreeNonEmpty(a: string, b: string, c: string)
    ensures NonEmpty([a, b, c]) == (if a == "" then 0 else 1) + (if b == "" then 0 else 1) + (if c == "" then 0 else 1)
  {
    assert [a, b, c][..2] == [a, b] && [a, b][..1] == [a] && [a][..0] == [];
    assert NonEmpty([a]) == if a == "" then 0 else 1;
    assert NonEmpty([a, b]) == NonEmpty([a]) + if b == "" then 0 else 1;
  }

  lemma {:induction false} NoAudienceErrors(audiences: seq<string>, path: Path)
    ensures AudienceErrors(audiences, path) == [] <==> "" !in audiences
  {
    if audiences != [] {
      var n := |audiences| - 1;
      NoAudienceErrors(audiences[..n], path);
      assert audiences == audiences[..n] + [audiences[n]];
    }
  }

  lemma PrefixedHasNoErrors(v: A.PrefixedClaimOrExpression, path: Path)
    ensures PrefixedErrors(v, path) == [] <==> PrefixedAccepted(v)
  {
    TwoNonEmpty(Deref(v.claim), Deref(v.expression));
  }

  /** A claim rule is accepted only if it has neither a claim nor a required value. */
  lemma RuleHasNoErrors(v: A.ClaimValidationRule, p: Path)
    ensures RuleErrors(v, p) == [] <==> Deref(v.claim) == "" && Deref(v.requiredValue) == ""
  {
    hide NonEmpty;
    var claim, required, message := Deref(v.claim), Deref(v.requiredValue), Deref(v.message);
    ThreeNonEmpty(claim, required, message);
    ThreeNonEmpty(required, claim, required);
    ThreeNonEmpty(message, claim, required);
    ThreeNonEmpty(required, required, message);
  }

  lemma {:induction false} RulesHaveNoErrors(rules: seq<A.ClaimValidationRule>, path: Path)
    ensures RulesErrors(rules, path) == [] <==>
      forall i :: 0 <= i < |rules| ==> Deref(rules[i].claim) == "" && Deref(rules[i].requiredValue) == ""
  {
    hide RuleErrors;
    if rules != [] {
      var n := |rules| - 1;
      RulesHaveNoErrors(rules[..n], path);
      RuleHasNoErrors(rules[n], Index(path, n));
      assert forall i :: 0 <= i < n ==> rules[..n][i] == rules[i];
    }
  }

  lemma JwtHasNoErrors(v: A.JwtAuthenticator, p: Path)
    ensures JwtErrors(v, p) == [] <==> JwtAccepted(v)
  {
    hide NonEmpty, AudienceErrors, RulesErrors, PrefixedErrors, PrefixedAccepted;
    var m := v.claimMappings;
    NoAudienceErrors(v.issuer.audiences.GetOr([]), Child(Child(p, "issuer"), "audiences"));
    RulesHaveNoErrors(Flatten(v.claimValidationRules).GetOr([]), Child(p, "claim_validation_rules"));
    PrefixedHasNoErrors(m.username, Child(Child(p, "claim_mappings"), "username"));
    PrefixedHasNoErrors(m.groups.GetOr(NO_PREFIXED), Child(Child(p, "claim_mappings"), "groups"));
    TwoNonEmpty(Deref(m.uid.GetOr(NO_CLAIM).claim), Deref(m.uid.GetOr(NO_CLAIM).expression));
  }

  lemma {:induction false} JwtsHaveNoErrors(jwts: seq<A.JwtAuthenticator>, path: Path)
    ensures JwtsErrors(jwts, path) == [] <==> Accepted(jwts)
  {
    hide JwtErrors, Accepted, URLs;
    if jwts != [] {
      var n := |jwts| - 1;
      JwtsHaveNoErrors(jwts[..n], path);
      JwtHasNoErrors(jwts[n], Index(path, n));
      AcceptedGrows(jwts, n);
    } else {
      NothingAccepted();
    }
  }

  lemma NothingAccepted()
    ensures Accepted([])
  {
  }

  lemma AcceptedGrows(jwts: seq<A.JwtAuthenticator>, n: nat)
    requires n + 1 == |jwts|
    ensures Accepted(jwts) <==> Accepted(jwts[..n]) && jwts[n].issuer.url !in URLs(jwts[..n]) && JwtAccepted(jwts[n])
  {
    hide JwtAccepted;
    assert forall i :: 0 <= i < n ==> jwts[..n][i] == jwts[i];
  }

  /** The parser adds no error if and only if the configuration is acceptable: issuer URLs are unique and
      differ from their discovery URLs, no audience is empty, claims and expressions exclude each other,
      prefixed claims have a prefix, claim rules have neither claim nor required value, and there is at
      most one extra mapping. */
  lemma ParsesWithoutErrorsIffAccepted(v: Option<A.Configuration>, path: Path)
    ensures ConfigurationErrors(v, path) == [] <==> v == None || Accepted(v.value.jwt.GetOr([]))
  {
    if v.Some? {
      JwtsHaveNoErrors(v.value.jwt.GetOr([]), Child(path, "jwt"));
    }
  }

  /** What a parsed configuration is, and what a parsed authenticator keeps of its user rules although printing
      loses them. */
  lemma ParsedKeeps(v: A.Configuration, i: nat, k: nat)
    requires i < |v.jwt.GetOr([])| && k < |Flatten(v.jwt.GetOr([])[i].userValidationRules).GetOr([])|
    ensures var parsed := ParsedConfiguration(Some(v)).value;
      var rule := Flatten(v.jwt.GetOr([])[i].userValidationRules).GetOr([])[k];
      && parsed.typeMeta == K.TypeMeta("AuthenticationConfiguration", "apiserver.config.k8s.io/v1")
      && |parsed.jwt.GetOr([])| == |v.jwt.GetOr([])|
      && var rules := parsed.jwt.GetOr([])[i].userValidationRules.GetOr([]);
         && k < |rules|
         && rules[k].expression == rule.expression
         && rules[k].message == rule.message.GetOr("")
  {
  }
}
