/** Which errors the parser of the authentication configuration reports, one by one. */
module AuthenticationErrors {
  import opened Wrappers
  import A = ApiTypes
  import opened FieldErrors
  import opened AuthenticationConfig
  import opened AuthenticationProperties

  /** How often an error is reported. */
  function Times(errors: seq<FieldError>, e: FieldError): nat {
    multiset(errors)[e]
  }

  function Once(b: bool): nat {
    if b then 1 else 0
  }

  lemma TimesSum(a: seq<FieldError>, b: seq<FieldError>, e: FieldError)
    ensures Times(a + b, e) == Times(a, e) + Times(b, e)
  {
  }

  lemma WhenTimes(condition: bool, path: Path, reason: Reason, e: FieldError)
    ensures Times(When(condition, path, reason), e) == Once(condition && e == FieldError(path, reason))
  {
  }

  // ---------- what is blamed ----------

  /** Claims and expressions exclude each other, and a claim needs a prefix. */
  predicate PrefixedBlamed(v: A.PrefixedClaimOrExpression, path: Path, e: FieldError) {
    e.path == path &&
    match e.reason
    case ClaimAndExpression => v.claim.GetOr("") != "" && v.expression.GetOr("") != ""
    case ClaimWithoutPrefix => v.claim.GetOr("") != "" && v.prefix == None
    case _ => false
  }

  predicate ClaimBlamed(v: A.ClaimOrExpression, path: Path, e: FieldError) {
    e == FieldError(path, ClaimAndExpression) && v.claim.GetOr("") != "" && v.expression.GetOr("") != ""
  }

  /** An empty audience is blamed at its index. */
  predicate AudienceBlamed(audiences: seq<string>, path: Path, e: FieldError) {
    && e.reason == Required
    && e.path.Index? && e.path.parent == path
    && e.path.index < |audiences| && audiences[e.path.index] == ""
  }

  predicate IssuerBlamed(v: A.Issuer, path: Path, e: FieldError) {
    || (e == FieldError(Child(path, "discovery_url"), SameAsURL) && v.discoveryURL == Some(v.url))
    || AudienceBlamed(v.audiences.GetOr([]), Child(path, "audiences"), e)
  }

  /** The required value stands for the expression as well. */
  predicate RuleBlamed(v: A.ClaimValidationRule, path: Path, e: FieldError) {
    e.path == path &&
    var claim, required, message := v.claim.GetOr("") != "", v.requiredValue.GetOr("") != "", v.message.GetOr("") != "";
    match e.reason
    case ClaimExpressionMessage => (claim && required) || (claim && message) || (required && message)
    case ExpressionClaimRequiredValue => required
    case MessageClaimRequiredValue => (claim && required) || (claim && message) || (required && message)
    case RequiredValueExpressionMessage => required
    case ClaimWithoutRequiredValue => claim && !required
    case _ => false
  }

  predicate RulesBlamed(rules: seq<A.ClaimValidationRule>, path: Path, e: FieldError) {
    && e.path.Index? && e.path.parent == path && e.path.index < |rules|
    && RuleBlamed(rules[e.path.index], e.path, e)
  }

  /** Every extra mapping but the first repeats a key. */
  predicate ExtraBlamed(n: nat, path: Path, e: FieldError) {
    && e.reason == Duplicate
    && e.path.Child? && e.path.name == "key"
    && e.path.parent.Index? && e.path.parent.parent == path
    && 1 <= e.path.parent.index < n
  }

  predicate MappingsBlamed(v: A.ClaimMappings, path: Path, e: FieldError) {
    || PrefixedBlamed(v.username, Child(path, "username"), e)
    || PrefixedBlamed(v.groups.GetOr(NO_PREFIXED), Child(path, "groups"), e)
    || ClaimBlamed(v.uid.GetOr(NO_CLAIM), Child(path, "uid"), e)
    || ExtraBlamed(|Flatten(v.extra).GetOr([])|, Child(path, "extra"), e)
  }

  predicate JwtBlamed(v: A.JwtAuthenticator, path: Path, e: FieldError) {
    || IssuerBlamed(v.issuer, Child(path, "issuer"), e)
    || RulesBlamed(Flatten(v.claimValidationRules).GetOr([]), Child(path, "claim_validation_rules"), e)
    || MappingsBlamed(v.claimMappings, Child(path, "claim_mappings"), e)
  }

  /** The issuer has the URL of an earlier one. */
  ghost predicate Repeats(jwts: seq<A.JwtAuthenticator>, i: nat)
    requires i < |jwts|
  {
    exists j :: 0 <= j < i && jwts[j].issuer.url == jwts[i].issuer.url
  }

  ghost predicate EntryBlamed(jwts: seq<A.JwtAuthenticator>, path: Path, i: nat, e: FieldError)
    requires i < |jwts|
  {
    || (e == FieldError(Child(Child(Index(path, i), "issuer"), "url"), Duplicate) && Repeats(jwts, i))
    || JwtBlamed(jwts[i], Index(path, i), e)
  }

  ghost predicate JwtsBlamed(jwts: seq<A.JwtAuthenticator>, path: Path, e: FieldError) {
    exists i :: 0 <= i < |jwts| && EntryBlamed(jwts, path, i, e)
  }

  // ---------- paths ----------

  predicate Under(q: Path, p: Path) {
    q == p || (q.Child? && Under(q.parent, p)) || (q.Index? && Under(q.parent, p))
  }

  function Depth(p: Path): nat {
    if p.Root? then 0 else Depth(p.parent) + 1
  }

  lemma {:induction false} UnderIsDeeper(q: Path, p: Path)
    requires Under(q, p)
    ensures Depth(p) <= Depth(q)
  {
    if q != p {
      UnderIsDeeper(q.parent, p);
    }
  }

  lemma {:induction false} OneAncestor(q: Path, p: Path, p': Path)
    requires Under(q, p) && Under(q, p') && Depth(p) == Depth(p')
    ensures p == p'
  {
    if q == p {
      if q != p' {
        UnderIsDeeper(q.parent, p');
      }
    } else if q == p' {
      UnderIsDeeper(q.parent, p);
    } else {
      OneAncestor(q.parent, p, p');
    }
  }

  lemma {:induction false} UnderParent(q: Path, p: Path)
    requires !p.Root? && Under(q, p)
    ensures Under(q, p.parent)
  {
    if q != p {
      UnderParent(q.parent, p);
    }
  }

  lemma IssuerUnder(v: A.Issuer, path: Path, e: FieldError)
    requires IssuerBlamed(v, path, e)
    ensures Under(e.path, path)
  {
    UnderParent(e.path, e.path);
    if e.path.parent != path {
      UnderParent(e.path, e.path.parent);
    }
  }

  lemma RulesUnder(rules: seq<A.ClaimValidationRule>, path: Path, e: FieldError)
    requires RulesBlamed(rules, path, e)
    ensures Under(e.path, path)
  {
    hide RuleBlamed;
    UnderParent(e.path, e.path);
  }

  lemma MappingsUnder(v: A.ClaimMappings, path: Path, e: FieldError)
    requires MappingsBlamed(v, path, e)
    ensures Under(e.path, path)
  {
    UnderParent(e.path, e.path);
    if ExtraBlamed(|Flatten(v.extra).GetOr([])|, Child(path, "extra"), e) {
      UnderParent(e.path, e.path.parent);
      UnderParent(e.path, e.path.parent.parent);
    }
  }

  lemma JwtUnder(v: A.JwtAuthenticator, path: Path, e: FieldError)
    requires JwtBlamed(v, path, e)
    ensures Under(e.path, path)
  {
    if IssuerBlamed(v.issuer, Child(path, "issuer"), e) {
      IssuerUnder(v.issuer, Child(path, "issuer"), e);
      UnderParent(e.path, Child(path, "issuer"));
    } else if RulesBlamed(Flatten(v.claimValidationRules).GetOr([]), Child(path, "claim_validation_rules"), e) {
      RulesUnder(Flatten(v.claimValidationRules).GetOr([]), Child(path, "claim_validation_rules"), e);
      UnderParent(e.path, Child(path, "claim_validation_rules"));
    } else {
      MappingsUnder(v.claimMappings, Child(path, "claim_mappings"), e);
      UnderParent(e.path, Child(path, "claim_mappings"));
    }
  }

  // ---------- every error is reported once, and nothing else is ----------

  lemma PrefixedTimes(v: A.PrefixedClaimOrExpression, path: Path, e: FieldError)
    ensures Times(PrefixedErrors(v, path), e) == Once(PrefixedBlamed(v, path, e))
  {
    TwoNonEmpty(Deref(v.claim), Deref(v.expression));
    hide NonEmpty;
  }

  lemma ClaimTimes(v: A.ClaimOrExpression, path: Path, e: FieldError)
    ensures Times(ClaimErrors(v, path), e) == Once(ClaimBlamed(v, path, e))
  {
    TwoNonEmpty(Deref(v.claim), Deref(v.expression));
    hide NonEmpty;
  }

  lemma {:induction false} AudienceTimes(audiences: seq<string>, path: Path, e: FieldError)
    ensures Times(AudienceErrors(audiences, path), e) == Once(AudienceBlamed(audiences, path, e))
  {
    if audiences != [] {
      var n := |audiences| - 1;
      AudienceTimes(audiences[..n], path, e);
      TimesSum(AudienceErrors(audiences[..n], path), When(audiences[n] == "", Index(path, n), Required), e);
      WhenTimes(audiences[n] == "", Index(path, n), Required, e);
      hide Times, When;
    }
  }

  lemma IssuerTimes(v: A.Issuer, path: Path, e: FieldError)
    ensures Times(IssuerErrors(v, path), e) == Once(IssuerBlamed(v, path, e))
  {
    var first := When(v.discoveryURL == Some(v.url), Child(path, "discovery_url"), SameAsURL);
    TimesSum(first, AudienceErrors(v.audiences.GetOr([]), Child(path, "audiences")), e);
    WhenTimes(v.discoveryURL == Some(v.url), Child(path, "discovery_url"), SameAsURL, e);
    AudienceTimes(v.audiences.GetOr([]), Child(path, "audiences"), e);
    hide Times, When, AudienceErrors;
  }

  lemma FiveTimes(a: seq<FieldError>, b: seq<FieldError>, c: seq<FieldError>, d: seq<FieldError>, f: seq<FieldError>,
                  e: FieldError)
    ensures Times(a + b + c + d + f, e) == Times(a, e) + Times(b, e) + Times(c, e) + Times(d, e) + Times(f, e)
  {
    TimesSum(a + b + c + d, f, e);
    TimesSum(a + b + c, d, e);
    TimesSum(a + b, c, e);
    TimesSum(a, b, e);
    hide Times;
  }

  /** Two of the claim, the required value and the message are given. */
  predicate Two(v: A.ClaimValidationRule) {
    var claim, required, message := v.claim.GetOr("") != "", v.requiredValue.GetOr("") != "", v.message.GetOr("") != "";
    (claim && required) || (claim && message) || (required && message)
  }

  lemma RuleErrorsByCase(v: A.ClaimValidationRule, path: Path)
    ensures var required := Deref(v.requiredValue) != "";
      RuleErrors(v, path) ==
        When(Two(v), path, ClaimExpressionMessage) + When(required, path, ExpressionClaimRequiredValue)
        + When(Two(v), path, MessageClaimRequiredValue) + When(required, path, RequiredValueExpressionMessage)
        + When(!required && Deref(v.claim) != "", path, ClaimWithoutRequiredValue)
  {
    var claim, required, message := Deref(v.claim), Deref(v.requiredValue), Deref(v.message);
    ThreeNonEmpty(claim, required, message);
    ThreeNonEmpty(required, claim, required);
    ThreeNonEmpty(message, claim, required);
    ThreeNonEmpty(required, required, message);
    hide NonEmpty, When;
  }

  lemma RuleTimes(v: A.ClaimValidationRule, path: Path, e: FieldError)
    ensures Times(RuleErrors(v, path), e) == Once(RuleBlamed(v, path, e))
  {
    var required := Deref(v.requiredValue) != "";
    var alone := !required && Deref(v.claim) != "";
    RuleErrorsByCase(v, path);
    WhenTimes(Two(v), path, ClaimExpressionMessage, e);
    WhenTimes(required, path, ExpressionClaimRequiredValue, e);
    WhenTimes(Two(v), path, MessageClaimRequiredValue, e);
    WhenTimes(required, path, RequiredValueExpressionMessage, e);
    WhenTimes(alone, path, ClaimWithoutRequiredValue, e);
    hide Times, When, RuleErrors;
    FiveTimes(When(Two(v), path, ClaimExpressionMessage), When(required, path, ExpressionClaimRequiredValue),
              When(Two(v), path, MessageClaimRequiredValue), When(required, path, RequiredValueExpressionMessage),
              When(alone, path, ClaimWithoutRequiredValue), e);
  }

  lemma {:induction false} RulesTimes(rules: seq<A.ClaimValidationRule>, path: Path, e: FieldError)
    ensures Times(RulesErrors(rules, path), e) == Once(RulesBlamed(rules, path, e))
  {
    hide RuleErrors, RuleBlamed;
    if rules != [] {
      var n := |rules| - 1;
      RulesTimes(rules[..n], path, e);
      TimesSum(RulesErrors(rules[..n], path), RuleErrors(rules[n], Index(path, n)), e);
      RuleTimes(rules[n], Index(path, n), e);
      RuleBlamedAt(rules[n], Index(path, n), e);
      hide Times;
    }
  }

  lemma RuleBlamedAt(v: A.ClaimValidationRule, path: Path, e: FieldError)
    ensures RuleBlamed(v, path, e) ==> e.path == path
  {
  }

  lemma {:induction false} ExtraTimes(n: nat, path: Path, e: FieldError)
    ensures Times(ExtraErrors(n, path), e) == Once(ExtraBlamed(n, path, e))
  {
    if n > 1 {
      var last := FieldError(Child(Index(path, n - 1), "key"), Duplicate);
      ExtraTimes(n - 1, path, e);
      TimesSum(ExtraErrors(n - 1, path), [last], e);
      assert Times([last], e) == Once(e == last);
      hide Times;
    }
  }

  lemma MappingsTimes(v: A.ClaimMappings, path: Path, e: FieldError)
    ensures Times(MappingsErrors(v, path), e) == Once(MappingsBlamed(v, path, e))
  {
    var n := |Flatten(v.extra).GetOr([])|;
    var a := PrefixedErrors(v.username, Child(path, "username"));
    var b := PrefixedErrors(v.groups.GetOr(NO_PREFIXED), Child(path, "groups"));
    var c, d := ClaimErrors(v.uid.GetOr(NO_CLAIM), Child(path, "uid")), ExtraErrors(n, Child(path, "extra"));
    TimesSum(a + b + c, d, e);
    TimesSum(a + b, c, e);
    TimesSum(a, b, e);
    PrefixedTimes(v.username, Child(path, "username"), e);
    PrefixedTimes(v.groups.GetOr(NO_PREFIXED), Child(path, "groups"), e);
    ClaimTimes(v.uid.GetOr(NO_CLAIM), Child(path, "uid"), e);
    ExtraTimes(n, Child(path, "extra"), e);
    hide Times, PrefixedErrors, ClaimErrors, ExtraErrors, Flatten;
  }

  lemma JwtTimes(v: A.JwtAuthenticator, path: Path, e: FieldError)
    ensures Times(JwtErrors(v, path), e) == Once(JwtBlamed(v, path, e))
  {
    var issuer, rules := Child(path, "issuer"), Child(path, "claim_validation_rules");
    var mappings := Child(path, "claim_mappings");
    var list := Flatten(v.claimValidationRules).GetOr([]);
    TimesSum(IssuerErrors(v.issuer, issuer) + RulesErrors(list, rules), MappingsErrors(v.claimMappings, mappings), e);
    TimesSum(IssuerErrors(v.issuer, issuer), RulesErrors(list, rules), e);
    IssuerTimes(v.issuer, issuer, e);
    RulesTimes(list, rules, e);
    MappingsTimes(v.claimMappings, mappings, e);
    PartsApart(v, path, e);
    hide Times, IssuerErrors, RulesErrors, MappingsErrors, IssuerBlamed, RulesBlamed, MappingsBlamed, Flatten;
  }

  /** No error belongs to two parts of an authenticator. */
  lemma PartsApart(v: A.JwtAuthenticator, path: Path, e: FieldError)
    ensures var i := IssuerBlamed(v.issuer, Child(path, "issuer"), e);
      var r := RulesBlamed(Flatten(v.claimValidationRules).GetOr([]), Child(path, "claim_validation_rules"), e);
      var m := MappingsBlamed(v.claimMappings, Child(path, "claim_mappings"), e);
      !(i && r) && !(i && m) && !(r && m)
  {
    var issuer, rules := Child(path, "issuer"), Child(path, "claim_validation_rules");
    var mappings := Child(path, "claim_mappings");
    var list := Flatten(v.claimValidationRules).GetOr([]);
    NamesApart(path);
    assert Depth(issuer) == Depth(rules) == Depth(mappings);
    var i, r := IssuerBlamed(v.issuer, issuer, e), RulesBlamed(list, rules, e);
    var m := MappingsBlamed(v.claimMappings, mappings, e);
    if i {
      IssuerUnder(v.issuer, issuer, e);
    }
    if r {
      RulesUnder(list, rules, e);
    }
    if m {
      MappingsUnder(v.claimMappings, mappings, e);
    }
    hide IssuerBlamed, RulesBlamed, MappingsBlamed, Under, Depth;
    NotUnderBoth(e.path, issuer, rules);
    NotUnderBoth(e.path, issuer, mappings);
    NotUnderBoth(e.path, rules, mappings);
  }

  lemma NotUnderBoth(q: Path, p: Path, p': Path)
    requires Depth(p) == Depth(p') && p != p'
    ensures !(Under(q, p) && Under(q, p'))
  {
    if Under(q, p) && Under(q, p') {
      OneAncestor(q, p, p');
    }
  }

  lemma NamesApart(path: Path)
    ensures Child(path, "issuer") != Child(path, "claim_validation_rules")
    ensures Child(path, "issuer") != Child(path, "claim_mappings")
    ensures Child(path, "claim_validation_rules") != Child(path, "claim_mappings")
  {
    assert |"issuer"| == 6 && |"claim_validation_rules"| == 22 && |"claim_mappings"| == 14;
  }

  /** An entry's errors: the repeated URL is none of its own. */
  lemma EntryTimes(jwts: seq<A.JwtAuthenticator>, path: Path, n: nat, e: FieldError)
    requires n < |jwts|
    ensures Times(EntryErrors(jwts[n], jwts[n].issuer.url in URLs(jwts[..n]), Index(path, n)), e)
         == Once(EntryBlamed(jwts, path, n, e))
  {
    var p := Index(path, n);
    var repeated := jwts[n].issuer.url in URLs(jwts[..n]);
    RepeatsIs(jwts, n);
    TimesSum(When(repeated, Child(Child(p, "issuer"), "url"), Duplicate), JwtErrors(jwts[n], p), e);
    WhenTimes(repeated, Child(Child(p, "issuer"), "url"), Duplicate, e);
    JwtTimes(jwts[n], p, e);
    UrlIsNotBlamed(jwts[n], p);
    hide Times, When, JwtErrors, JwtBlamed, URLs, Repeats;
  }

  lemma RepeatsIs(jwts: seq<A.JwtAuthenticator>, n: nat)
    requires n < |jwts|
    ensures jwts[n].issuer.url in URLs(jwts[..n]) <==> Repeats(jwts, n)
  {
    if j :| 0 <= j < n && jwts[j].issuer.url == jwts[n].issuer.url {
      assert jwts[..n][j].issuer.url in URLs(jwts[..n]);
    }
  }

  lemma UrlIsNotBlamed(v: A.JwtAuthenticator, path: Path)
    ensures !JwtBlamed(v, path, FieldError(Child(Child(path, "issuer"), "url"), Duplicate))
  {
    var e := FieldError(Child(Child(path, "issuer"), "url"), Duplicate);
    assert "url"[0] == 'u' && "key"[0] == 'k';
    hide Flatten;
  }

  lemma EntryUnder(jwts: seq<A.JwtAuthenticator>, path: Path, i: nat, e: FieldError)
    requires i < |jwts| && EntryBlamed(jwts, path, i, e)
    ensures Under(e.path, Index(path, i))
  {
    if JwtBlamed(jwts[i], Index(path, i), e) {
      JwtUnder(jwts[i], Index(path, i), e);
    } else {
      UnderParent(e.path, e.path);
      UnderParent(e.path, e.path.parent);
    }
  }

  lemma EntriesApart(jwts: seq<A.JwtAuthenticator>, path: Path, i: nat, j: nat, e: FieldError)
    requires i < j < |jwts|
    ensures !(EntryBlamed(jwts, path, i, e) && EntryBlamed(jwts, path, j, e))
  {
    if EntryBlamed(jwts, path, i, e) && EntryBlamed(jwts, path, j, e) {
      EntryUnder(jwts, path, i, e);
      EntryUnder(jwts, path, j, e);
      OneAncestor(e.path, Index(path, i), Index(path, j));
    }
  }

  lemma JwtsBlamedGrows(jwts: seq<A.JwtAuthenticator>, path: Path, n: nat, e: FieldError)
    requires n + 1 == |jwts|
    ensures JwtsBlamed(jwts, path, e) <==> JwtsBlamed(jwts[..n], path, e) || EntryBlamed(jwts, path, n, e)
    ensures !(JwtsBlamed(jwts[..n], path, e) && EntryBlamed(jwts, path, n, e))
  {
    hide EntryBlamed;
    forall i | 0 <= i < n
      ensures EntryBlamed(jwts[..n], path, i, e) <==> EntryBlamed(jwts, path, i, e)
      ensures !(EntryBlamed(jwts, path, i, e) && EntryBlamed(jwts, path, n, e))
    {
      SameEntry(jwts, path, n, i, e);
      EntriesApart(jwts, path, i, n, e);
    }
  }

  lemma {:induction false} JwtsTimes(jwts: seq<A.JwtAuthenticator>, path: Path, e: FieldError)
    ensures Times(JwtsErrors(jwts, path), e) == Once(JwtsBlamed(jwts, path, e))
  {
    if jwts != [] {
      var n := |jwts| - 1;
      JwtsTimes(jwts[..n], path, e);
      EntryTimes(jwts, path, n, e);
      TimesSum(JwtsErrors(jwts[..n], path),
               EntryErrors(jwts[n], jwts[n].issuer.url in URLs(jwts[..n]), Index(path, n)), e);
      JwtsBlamedGrows(jwts, path, n, e);
      hide Times, EntryErrors, EntryBlamed, JwtsBlamed, URLs;
    }
  }

  lemma SameEntry(jwts: seq<A.JwtAuthenticator>, path: Path, n: nat, i: nat, e: FieldError)
    requires i < n <= |jwts|
    ensures EntryBlamed(jwts[..n], path, i, e) <==> EntryBlamed(jwts, path, i, e)
  {
    hide JwtBlamed;
  }

  /** The parser reports each fault of the configuration once, at its path and with its reason, and nothing
      else. */
  lemma ErrorsAreExactly(v: Option<A.Configuration>, path: Path, e: FieldError)
    ensures Times(ConfigurationErrors(v, path), e)
         == Once(v.Some? && JwtsBlamed(v.value.jwt.GetOr([]), Child(path, "jwt"), e))
  {
    if v.Some? {
      JwtsTimes(v.value.jwt.GetOr([]), Child(path, "jwt"), e);
    }
  }
}
