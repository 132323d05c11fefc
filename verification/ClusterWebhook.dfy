/** Admission of clusters: DockyardsCluster.validate. */
module ClusterWebhook {
  import opened Wrappers
  import opened Prefixes

  datatype OwnerReference = OwnerReference(kind: string, apiVersion: string)

  /** Parsing is left to libraries: `group` gives the API group of a group version and `prefix` the
      prefix that a string denotes, if any. */
  datatype Libraries = Libraries(group: string -> Option<string>, prefix: string -> Option<Prefix>) {
    ghost predicate Sound() {
      forall s :: prefix(s).Some? ==> prefix(s).value.Prefix? && prefix(s).value.Valid()
    }
  }

  datatype Field = PodSubnets | ServiceSubnets
  datatype Detail = UnableToParse | OverlapsWith(prefix: Prefix)
  datatype FieldError = FieldError(field: Field, index: nat, value: string, detail: Detail)
  datatype Verdict = Admitted | BadGroupVersion | OwnerRequired | Invalid(errors: seq<FieldError>)

  // ---------- the owner check ----------

  predicate IsOrganization(group: string -> Option<string>, owner: OwnerReference) {
    owner.kind == "Organization" && group(owner.apiVersion) == Some("dockyards.io")
  }

  /** An owner of kind Organization whose API version cannot be parsed fails the whole check. */
  predicate IsMalformed(group: string -> Option<string>, owner: OwnerReference) {
    owner.kind == "Organization" && group(owner.apiVersion) == None
  }

  ghost predicate HasOrganization(group: string -> Option<string>, owners: seq<OwnerReference>) {
    exists o :: o in owners && IsOrganization(group, o)
  }

  ghost predicate HasMalformed(group: string -> Option<string>, owners: seq<OwnerReference>) {
    exists o :: o in owners && IsMalformed(group, o)
  }

  lemma OwnersGrow(group: string -> Option<string>, owners: seq<OwnerReference>, o: OwnerReference)
    ensures HasOrganization(group, owners + [o]) <==> HasOrganization(group, owners) || IsOrganization(group, o)
    ensures HasMalformed(group, owners + [o]) <==> HasMalformed(group, owners) || IsMalformed(group, o)
  {
    var all := owners + [o];
    assert all[|owners|] == o;
    if x :| x in owners && IsOrganization(group, x) {
      assert x in all;
    }
    if x :| x in owners && IsMalformed(group, x) {
      assert x in all;
    }
  }

  lemma OwnersSpelledOut(group: string -> Option<string>, owners: seq<OwnerReference>)
    ensures HasMalformed(group, owners) <==>
      exists o :: o in owners && o.kind == "Organization" && group(o.apiVersion) == None
    ensures HasOrganization(group, owners) <==>
      exists o :: o in owners && o.kind == "Organization" && group(o.apiVersion) == Some("dockyards.io")
  {
  }

  // ---------- the specification of the subnet loops ----------

  function Parsed(libs: Libraries, subnet: string): (p: Prefix)
    ensures libs.Sound() ==> p.Valid()
  {
    libs.prefix(subnet).GetOr(NoPrefix)
  }

  function AllParsed(libs: Libraries, subnets: seq<string>): seq<Prefix> {
    seq(|subnets|, i requires 0 <= i < |subnets| => Parsed(libs, subnets[i]))
  }

  ghost predicate AllValid(prefixes: seq<Prefix>) {
    forall p :: p in prefixes ==> p.Valid()
  }

  function OverlapErrors(field: Field, index: nat, value: string, prefix: Prefix, earlier: seq<Prefix>): seq<FieldError>
    requires prefix.Valid() && AllValid(earlier)
  {
    if earlier == [] then []
    else
      var n := |earlier| - 1;
      OverlapErrors(field, index, value, prefix, earlier[..n])
      + if prefix.Overlaps(earlier[n]) then [FieldError(field, index, value, OverlapsWith(earlier[n]))] else []
  }

  function EntryErrors(libs: Libraries, field: Field, index: nat, value: string, earlier: seq<Prefix>): seq<FieldError>
    requires libs.Sound() && AllValid(earlier)
  {
    (if libs.prefix(value).None? then [FieldError(field, index, value, UnableToParse)] else [])
    + OverlapErrors(field, index, value, Parsed(libs, value), earlier)
  }

  /** The errors of one list of subnets, given the prefixes of the lists before it. */
  function ListErrors(libs: Libraries, field: Field, subnets: seq<string>, before: seq<Prefix>): seq<FieldError>
    requires libs.Sound() && AllValid(before)
  {
    if subnets == [] then []
    else
      var n := |subnets| - 1;
      ParsedAreValid(libs, subnets[..n]);
      ListErrors(libs, field, subnets[..n], before)
      + EntryErrors(libs, field, n, subnets[n], before + AllParsed(libs, subnets[..n]))
  }

  function SubnetErrors(libs: Libraries, podSubnets: seq<string>, serviceSubnets: seq<string>): seq<FieldError>
    requires libs.Sound()
  {
    ParsedAreValid(libs, podSubnets);
    ListErrors(libs, PodSubnets, podSubnets, [])
    + ListErrors(libs, ServiceSubnets, serviceSubnets, AllParsed(libs, podSubnets))
  }

  lemma ParsedAreValid(libs: Libraries, subnets: seq<string>)
    requires libs.Sound()
    ensures AllValid(AllParsed(libs, subnets))
  {
  }

  // ---------- the method ----------

  /** The inner loop. */
  method CheckOverlaps(field: Field, index: nat, subnet: string, newPrefix: Prefix, prefixes: seq<Prefix>,
                       errorList: seq<FieldError>)
    returns (errorList': seq<FieldError>)
    requires newPrefix.Valid() && AllValid(prefixes)
    ensures errorList' == errorList + OverlapErrors(field, index, subnet, newPrefix, prefixes)
  {
    errorList' := errorList;
    for j := 0 to |prefixes|
      invariant errorList' == errorList + OverlapErrors(field, index, subnet, newPrefix, prefixes[..j])
    {
      assert prefixes[..j + 1][..j] == prefixes[..j];
      if newPrefix.Overlaps(prefixes[j]) {
        errorList' := errorList' + [FieldError(field, index, subnet, OverlapsWith(prefixes[j]))];
      }
    }
    assert prefixes[..|prefixes|] == prefixes;
  }

  /** The two subnet loops, which differ in the field they report: the second one sees the prefixes of
      the first. */
  method CheckSubnets(libs: Libraries, field: Field, subnets: seq<string>, prefixes: seq<Prefix>,
                      errorList: seq<FieldError>)
    returns (prefixes': seq<Prefix>, errorList': seq<FieldError>)
    requires libs.Sound() && AllValid(prefixes)
    ensures prefixes' == prefixes + AllParsed(libs, subnets)
    ensures errorList' == errorList + ListErrors(libs, field, subnets, prefixes)
  {
    hide OverlapErrors, Parsed, Width;
    prefixes', errorList' := prefixes, errorList;
    for i := 0 to |subnets|
      invariant prefixes' == prefixes + AllParsed(libs, subnets[..i])
      invariant AllValid(prefixes')
      invariant errorList' == errorList + ListErrors(libs, field, subnets[..i], prefixes)
    {
      ghost var was := errorList';
      var subnet := subnets[i];
      var newPrefix := Parsed(libs, subnet);
      if libs.prefix(subnet).None? {
        errorList' := errorList' + [FieldError(field, i, subnet, UnableToParse)];
      }
      errorList' := CheckOverlaps(field, i, subnet, newPrefix, prefixes', errorList');
      assert errorList' == was + EntryErrors(libs, field, i, subnet, prefixes');
      assert subnets[..i + 1][..i] == subnets[..i];
      prefixes' := prefixes' + [newPrefix];
    }
    assert subnets[..|subnets|] == subnets;
  }

  /** The verdict of the owner check, if it ends the validation: one owner of kind Organization whose version
      does not parse, or none of the group dockyards.io. */
  method CheckOwners(group: string -> Option<string>, owners: seq<OwnerReference>) returns (verdict: Option<Verdict>)
    ensures verdict == if HasMalformed(group, owners) then Some(BadGroupVersion)
                       else if !HasOrganization(group, owners) then Some(OwnerRequired) else None
    ensures verdict == Some(BadGroupVersion) <==>
      exists o :: o in owners && o.kind == "Organization" && group(o.apiVersion) == None
    ensures verdict == None <==>
      && (exists o :: o in owners && o.kind == "Organization" && group(o.apiVersion) == Some("dockyards.io"))
      && (forall o :: o in owners && o.kind == "Organization" ==> group(o.apiVersion).Some?)
  {
    var hasOrganizationOwner := false;
    for i := 0 to |owners|
      invariant !HasMalformed(group, owners[..i])
      invariant hasOrganizationOwner <==> HasOrganization(group, owners[..i])
    {
      var ownerReference := owners[i];
      assert owners[..i + 1] == owners[..i] + [ownerReference];
      OwnersGrow(group, owners[..i], ownerReference);
      if ownerReference.kind != "Organization" {
        continue;
      }
      var groupVersion := group(ownerReference.apiVersion);
      if groupVersion.None? {
        assert ownerReference in owners;
        OwnersSpelledOut(group, owners);
        return Some(BadGroupVersion);
      }
      if groupVersion.value != "dockyards.io" {
        continue;
      }
      hasOrganizationOwner := true;
    }
    assert owners[..|owners|] == owners;
    OwnersSpelledOut(group, owners);
    verdict := if hasOrganizationOwner then None else Some(OwnerRequired);
  }

  method Validate(libs: Libraries, owners: seq<OwnerReference>, podSubnets: seq<string>, serviceSubnets: seq<string>)
    returns (verdict: Verdict)
    requires libs.Sound()
    ensures verdict == BadGroupVersion <==> HasMalformed(libs.group, owners)
    ensures verdict == OwnerRequired <==> !HasMalformed(libs.group, owners) && !HasOrganization(libs.group, owners)
    ensures verdict.Invalid? ==> verdict.errors == SubnetErrors(libs, podSubnets, serviceSubnets) != []
    ensures verdict.Admitted? ==> SubnetErrors(libs, podSubnets, serviceSubnets) == []
  {
    hide HasMalformed, HasOrganization, ListErrors, Parsed, Width;
    var early := CheckOwners(libs.group, owners);
    if early.Some? {
      return early.value;
    }
    var prefixes, errorList := CheckSubnets(libs, PodSubnets, podSubnets, [], []);
    prefixes, errorList := CheckSubnets(libs, ServiceSubnets, serviceSubnets, prefixes, errorList);
    assert [] + AllParsed(libs, podSubnets) == AllParsed(libs, podSubnets);
    verdict := if |errorList| == 0 then Admitted else Invalid(errorList);
  }

  // ---------- what the errors mean ----------

  /** The positions of `podSubnets ++ serviceSubnets` that do not parse, and the pairs of positions whose
      prefixes share an address. */
  ghost function Unparsable(libs: Libraries, subnets: seq<string>): set<nat> {
    set i: nat | i < |subnets| && libs.prefix(subnets[i]).None?
  }

  ghost function PairedWith(earlier: set<nat>, k: nat): set<(nat, nat)> {
    set i | i in earlier :: (i, k)
  }

  ghost function SharingPairs(prefixes: seq<Prefix>): set<(nat, nat)> {
    set i: nat, j: nat | i < j < |prefixes| && ShareAddress(prefixes[i], prefixes[j]) :: (i, j)
  }

  ghost function SharingWith(prefix: Prefix, earlier: seq<Prefix>): set<nat> {
    set i: nat | i < |earlier| && ShareAddress(earlier[i], prefix)
  }

  lemma SharingGrows(prefix: Prefix, earlier: seq<Prefix>, last: Prefix)
    ensures |SharingWith(prefix, earlier + [last])|
         == |SharingWith(prefix, earlier)| + if ShareAddress(last, prefix) then 1 else 0
  {
    hide ShareAddress;
    var n := |earlier|;
    assert SharingWith(prefix, earlier + [last])
        == SharingWith(prefix, earlier) + if ShareAddress(last, prefix) then {n} else {};
  }

  lemma {:induction false} OverlapErrorsCount(field: Field, index: nat, value: string, prefix: Prefix,
                                              earlier: seq<Prefix>)
    requires prefix.Valid() && AllValid(earlier)
    ensures |OverlapErrors(field, index, value, prefix, earlier)| == |SharingWith(prefix, earlier)|
  {
    hide ShareAddress, SharingWith, Width, Quotient;
    if earlier != [] {
      var n := |earlier| - 1;
      OverlapErrorsCount(field, index, value, prefix, earlier[..n]);
      OverlapsIffShareAddress(prefix, earlier[n]);
      ShareIsSymmetric(prefix, earlier[n]);
      SharingGrows(prefix, earlier[..n], earlier[n]);
      assert earlier == earlier[..n] + [earlier[n]];
    } else {
      NothingShared(prefix);
    }
  }

  lemma NothingShared(prefix: Prefix)
    ensures SharingWith(prefix, []) == {}
  {
  }

  lemma {:induction false} PairedWithSize(earlier: set<nat>, k: nat)
    ensures |PairedWith(earlier, k)| == |earlier|
  {
    if earlier == {} {
      assert PairedWith(earlier, k) == {};
    } else {
      var x :| x in earlier;
      PairedWithSize(earlier - {x}, k);
      assert PairedWith(earlier, k) == PairedWith(earlier - {x}, k) + {(x, k)};
    }
  }

  /** One more prefix adds exactly the pairs it forms with the earlier ones. */
  lemma PairsGrow(prefixes: seq<Prefix>, prefix: Prefix)
    ensures |SharingPairs(prefixes + [prefix])| == |SharingPairs(prefixes)| + |SharingWith(prefix, prefixes)|
  {
    hide ShareAddress;
    var n, all := |prefixes|, prefixes + [prefix];
    var with := SharingWith(prefix, prefixes);
    PairedWithSize(with, n);
    forall i: nat, j: nat
      ensures (i, j) in SharingPairs(all) <==> (i, j) in SharingPairs(prefixes) || (i, j) in PairedWith(with, n)
    {
      PairsGrowAt(prefixes, prefix, i, j);
    }
    hide SharingWith, PairedWith;
    assert SharingPairs(all) == SharingPairs(prefixes) + PairedWith(with, n);
    forall i: nat, j: nat | (i, j) in SharingPairs(prefixes) ensures (i, j) !in PairedWith(with, n) {
      NotPairedWith(with, n, i, j);
    }
    assert SharingPairs(prefixes) !! PairedWith(with, n);
  }

  lemma NotPairedWith(earlier: set<nat>, k: nat, i: nat, j: nat)
    requires j != k
    ensures (i, j) !in PairedWith(earlier, k)
  {
  }

  lemma PairsGrowAt(prefixes: seq<Prefix>, prefix: Prefix, i: nat, j: nat)
    ensures (i, j) in SharingPairs(prefixes + [prefix])
       <==> (i, j) in SharingPairs(prefixes) || (i, j) in PairedWith(SharingWith(prefix, prefixes), |prefixes|)
  {
    hide ShareAddress;
    var n, all := |prefixes|, prefixes + [prefix];
    assert (i, j) in SharingPairs(all) <==> i < j < |all| && ShareAddress(all[i], all[j]);
    assert (i, j) in SharingPairs(prefixes) <==> i < j < n && ShareAddress(prefixes[i], prefixes[j]);
    assert (i, j) in PairedWith(SharingWith(prefix, prefixes), n)
      <==> j == n && i < n && ShareAddress(prefixes[i], prefix);
  }

  lemma UnparsableGrows(libs: Libraries, subnets: seq<string>, subnet: string)
    ensures |Unparsable(libs, subnets + [subnet])|
         == |Unparsable(libs, subnets)| + if libs.prefix(subnet).None? then 1 else 0
  {
    var n := |subnets|;
    assert Unparsable(libs, subnets + [subnet])
        == Unparsable(libs, subnets) + if libs.prefix(subnet).None? then {n} else {};
  }

  lemma {:induction false} ListErrorsCount(libs: Libraries, field: Field, subnets: seq<string>, before: seq<Prefix>)
    requires libs.Sound() && AllValid(before)
    ensures |ListErrors(libs, field, subnets, before)|
         == |Unparsable(libs, subnets)| + |SharingPairs(before + AllParsed(libs, subnets))| - |SharingPairs(before)|
  {
    hide OverlapErrors, SharingPairs, SharingWith, Unparsable, Parsed, Width;
    if subnets == [] {
      assert before + AllParsed(libs, subnets) == before;
      NothingUnparsable(libs);
    } else {
      var n := |subnets| - 1;
      var earlier := before + AllParsed(libs, subnets[..n]);
      ListErrorsCount(libs, field, subnets[..n], before);
      ParsedAreValid(libs, subnets[..n]);
      OverlapErrorsCount(field, n, subnets[n], Parsed(libs, subnets[n]), earlier);
      PairsGrow(earlier, Parsed(libs, subnets[n]));
      assert before + AllParsed(libs, subnets) == earlier + [Parsed(libs, subnets[n])];
      assert subnets == subnets[..n] + [subnets[n]];
      UnparsableGrows(libs, subnets[..n], subnets[n]);
    }
  }

  lemma NothingUnparsable(libs: Libraries)
    ensures Unparsable(libs, []) == {}
  {
  }

  lemma UnparsableSum(libs: Libraries, a: seq<string>, b: seq<string>)
    ensures |Unparsable(libs, a + b)| == |Unparsable(libs, a)| + |Unparsable(libs, b)|
    decreases b
  {
    hide Unparsable;
    if b == [] {
      assert a + b == a;
      NothingUnparsable(libs);
    } else {
      var n := |b| - 1;
      UnparsableSum(libs, a, b[..n]);
      assert a + b == (a + b[..n]) + [b[n]] && b == b[..n] + [b[n]];
      UnparsableGrows(libs, a + b[..n], b[n]);
      UnparsableGrows(libs, b[..n], b[n]);
    }
  }

  lemma NoPairs()
    ensures SharingPairs([]) == {}
  {
  }

  lemma AllParsedSum(libs: Libraries, a: seq<string>, b: seq<string>)
    ensures AllParsed(libs, a + b) == AllParsed(libs, a) + AllParsed(libs, b)
  {
  }

  lemma NothingIsValid()
    ensures AllValid([])
  {
  }

  /** Past the owner check there is one error for every entry that does not parse and one for every
      pair of entries with a common address, over both lists together. */
  lemma ErrorCount(libs: Libraries, podSubnets: seq<string>, serviceSubnets: seq<string>)
    requires libs.Sound()
    ensures |SubnetErrors(libs, podSubnets, serviceSubnets)|
         == |Unparsable(libs, podSubnets + serviceSubnets)|
           + |SharingPairs(AllParsed(libs, podSubnets + serviceSubnets))|
  {
    hide ListErrors, Unparsable, AllValid, SharingPairs, AllParsed;
    var pods := AllParsed(libs, podSubnets);
    ParsedAreValid(libs, podSubnets);
    assert AllValid([]) by { NothingIsValid(); }
    ListErrorsCount(libs, PodSubnets, podSubnets, []);
    ListErrorsCount(libs, ServiceSubnets, serviceSubnets, pods);
    UnparsableSum(libs, podSubnets, serviceSubnets);
    assert [] + pods == pods;
    NoPairs();
    AllParsedSum(libs, podSubnets, serviceSubnets);
  }

  /** No errors means: everything parses, and no address lies in two of the subnets. */
  lemma NoErrorsIffDisjoint(libs: Libraries, podSubnets: seq<string>, serviceSubnets: seq<string>)
    requires libs.Sound()
    ensures var all := podSubnets + serviceSubnets;
      SubnetErrors(libs, podSubnets, serviceSubnets) == [] <==>
        && (forall i :: 0 <= i < |all| ==> libs.prefix(all[i]).Some?)
        && (forall i, j :: 0 <= i < j < |all| && libs.prefix(all[i]).Some? && libs.prefix(all[j]).Some? ==>
              !ShareAddress(libs.prefix(all[i]).value, libs.prefix(all[j]).value))
  {
    var all := podSubnets + serviceSubnets;
    var prefixes := AllParsed(libs, all);
    ErrorCount(libs, podSubnets, serviceSubnets);
    hide SubnetErrors, ShareAddress;
    if SubnetErrors(libs, podSubnets, serviceSubnets) == [] {
      assert Unparsable(libs, all) == {} && SharingPairs(prefixes) == {};
      forall i | 0 <= i < |all| ensures libs.prefix(all[i]).Some? {
        assert i !in Unparsable(libs, all);
      }
      forall i, j | 0 <= i < j < |all| && libs.prefix(all[i]).Some? && libs.prefix(all[j]).Some?
        ensures !ShareAddress(libs.prefix(all[i]).value, libs.prefix(all[j]).value)
      {
        assert (i, j) !in SharingPairs(prefixes);
      }
    } else if forall i :: 0 <= i < |all| ==> libs.prefix(all[i]).Some? {
      assert Unparsable(libs, all) == {};
      assert SharingPairs(prefixes) != {};
      var pair :| pair in SharingPairs(prefixes);
      assert ShareAddress(prefixes[pair.0], prefixes[pair.1]);
    }
  }

  /** The prefix is among those given, or that of an earlier entry of the list. */
  ghost predicate Earlier(libs: Libraries, subnets: seq<string>, before: seq<Prefix>, i: nat, p: Prefix)
    requires i <= |subnets|
  {
    p in before || exists j :: 0 <= j < i && libs.prefix(subnets[j]) == Some(p)
  }

  /** What an error of a list of subnets says: its field, the index and value of an entry, and that the entry
      does not parse, or parses and shares an address with an earlier prefix. */
  ghost predicate Blames(libs: Libraries, field: Field, subnets: seq<string>, before: seq<Prefix>, e: FieldError) {
    && e.field == field
    && e.index < |subnets|
    && e.value == subnets[e.index]
    && match e.detail
       case UnableToParse => libs.prefix(e.value) == None
       case OverlapsWith(p) =>
         && libs.prefix(e.value).Some?
         && Earlier(libs, subnets, before, e.index, p)
         && ShareAddress(libs.prefix(e.value).value, p)
  }

  lemma {:induction false} OverlapErrorsAre(field: Field, index: nat, value: string, prefix: Prefix,
                                            earlier: seq<Prefix>, e: FieldError)
    requires prefix.Valid() && AllValid(earlier)
    ensures e in OverlapErrors(field, index, value, prefix, earlier) <==>
      && e.field == field && e.index == index && e.value == value && e.detail.OverlapsWith?
      && e.detail.prefix in earlier && ShareAddress(prefix, e.detail.prefix)
  {
    hide ShareAddress, Width, Quotient;
    if earlier != [] {
      var n := |earlier| - 1;
      OverlapErrorsAre(field, index, value, prefix, earlier[..n], e);
      OverlapsIffShareAddress(prefix, earlier[n]);
      assert earlier == earlier[..n] + [earlier[n]];
    }
  }

  lemma ParsedBefore(libs: Libraries, subnets: seq<string>, before: seq<Prefix>, i: nat, p: Prefix)
    requires i <= |subnets| && p.Prefix? && libs.Sound()
    ensures p in before + AllParsed(libs, subnets[..i]) <==> Earlier(libs, subnets, before, i, p)
  {
    var parsed := AllParsed(libs, subnets[..i]);
    if p in parsed {
      var j :| 0 <= j < |parsed| && parsed[j] == p;
      assert libs.prefix(subnets[j]) == Some(p);
    }
    if j :| 0 <= j < i && libs.prefix(subnets[j]) == Some(p) {
      assert parsed[j] == p;
    }
  }

  lemma EntryErrorsAre(libs: Libraries, field: Field, subnets: seq<string>, before: seq<Prefix>, n: nat, e: FieldError)
    requires libs.Sound() && AllValid(before) && n < |subnets|
    requires AllValid(before + AllParsed(libs, subnets[..n]))
    ensures e in EntryErrors(libs, field, n, subnets[n], before + AllParsed(libs, subnets[..n])) <==>
      e.index == n && Blames(libs, field, subnets, before, e)
  {
    var earlier, p := before + AllParsed(libs, subnets[..n]), Parsed(libs, subnets[n]);
    OverlapErrorsAre(field, n, subnets[n], p, earlier, e);
    if e.detail.OverlapsWith? {
      NothingSharesWithNone(p, e.detail.prefix);
      if e.detail.prefix.Prefix? {
        ParsedBefore(libs, subnets, before, n, e.detail.prefix);
      }
    }
    hide OverlapErrors, ShareAddress, AllParsed, Earlier;
  }

  lemma NothingSharesWithNone(p: Prefix, q: Prefix)
    ensures ShareAddress(p, q) ==> p.Prefix? && q.Prefix?
  {
  }

  /** The errors of a list are exactly those: every unparsable entry and every overlap is reported, under its
      own field, index and value, and nothing else is. An entry that does not parse never overlaps. */
  lemma {:induction false} ListErrorsAre(libs: Libraries, field: Field, subnets: seq<string>, before: seq<Prefix>,
                                         e: FieldError)
    requires libs.Sound() && AllValid(before)
    ensures e in ListErrors(libs, field, subnets, before) <==> Blames(libs, field, subnets, before, e)
  {
    if subnets != [] {
      var n := |subnets| - 1;
      ParsedAreValid(libs, subnets[..n]);
      ListErrorsAre(libs, field, subnets[..n], before, e);
      EntryErrorsAre(libs, field, subnets, before, n, e);
      SameBlame(libs, field, subnets, before, n, e);
      hide EntryErrors, Blames;
    }
  }

  lemma SameBlame(libs: Libraries, field: Field, subnets: seq<string>, before: seq<Prefix>, n: nat, e: FieldError)
    requires n < |subnets|
    ensures Blames(libs, field, subnets[..n], before, e) <==> Blames(libs, field, subnets, before, e) && e.index < n
  {
    hide ShareAddress;
  }

  /** In particular, an entry that does not parse is remembered as the invalid prefix, which never overlaps:
      every overlap is one of an entry that parses with an earlier one that does. */
  lemma UnparsableNeverOverlaps(libs: Libraries, field: Field, subnets: seq<string>, before: seq<Prefix>, e: FieldError)
    requires libs.Sound() && AllValid(before)
    requires e in ListErrors(libs, field, subnets, before) && e.detail.OverlapsWith?
    ensures e.index < |subnets| && e.value == subnets[e.index] && libs.prefix(e.value).Some?
    ensures e.detail.prefix.Prefix? && ShareAddress(libs.prefix(e.value).value, e.detail.prefix)
    ensures e.detail.prefix in before + AllParsed(libs, subnets[..e.index])
  {
    ListErrorsAre(libs, field, subnets, before, e);
    NothingSharesWithNone(libs.prefix(e.value).value, e.detail.prefix);
    ParsedBefore(libs, subnets, before, e.index, e.detail.prefix);
    hide ListErrors, ShareAddress, AllParsed, Earlier;
  }

  /** Both lists: the service subnets are compared with the pod subnets too. */
  lemma SubnetErrorsAre(libs: Libraries, podSubnets: seq<string>, serviceSubnets: seq<string>, e: FieldError)
    requires libs.Sound()
    ensures e in SubnetErrors(libs, podSubnets, serviceSubnets) <==>
      match e.field
      case PodSubnets => Blames(libs, PodSubnets, podSubnets, [], e)
      case ServiceSubnets => Blames(libs, ServiceSubnets, serviceSubnets, AllParsed(libs, podSubnets), e)
  {
    ParsedAreValid(libs, podSubnets);
    NothingIsValid();
    ListErrorsAre(libs, PodSubnets, podSubnets, [], e);
    ListErrorsAre(libs, ServiceSubnets, serviceSubnets, AllParsed(libs, podSubnets), e);
    hide ListErrors, AllParsed, ShareAddress, Earlier;
  }

  /** The whole check, as its callers see it. */
  ghost predicate Acceptable(libs: Libraries, owners: seq<OwnerReference>, subnets: seq<string>) {
    && !HasMalformed(libs.group, owners)
    && HasOrganization(libs.group, owners)
    && (forall i :: 0 <= i < |subnets| ==> libs.prefix(subnets[i]).Some?)
    && (forall i, j :: 0 <= i < j < |subnets| && libs.prefix(subnets[i]).Some? && libs.prefix(subnets[j]).Some? ==>
          !ShareAddress(libs.prefix(subnets[i]).value, libs.prefix(subnets[j]).value))
  }

  /** A new cluster is admitted if and only if it is acceptable. */
  method Admit(libs: Libraries, owners: seq<OwnerReference>, podSubnets: seq<string>, serviceSubnets: seq<string>)
    returns (verdict: Verdict)
    requires libs.Sound()
    ensures verdict.Admitted? <==> Acceptable(libs, owners, podSubnets + serviceSubnets)
    ensures verdict.Invalid? ==>
      |verdict.errors| == |Unparsable(libs, podSubnets + serviceSubnets)|
        + |SharingPairs(AllParsed(libs, podSubnets + serviceSubnets))|
  {
    verdict := Validate(libs, owners, podSubnets, serviceSubnets);
    ErrorCount(libs, podSubnets, serviceSubnets);
    NoErrorsIffDisjoint(libs, podSubnets, serviceSubnets);
  }
}
