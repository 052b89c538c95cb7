/** The comparison of two resolved deployments: the deployments' own fields and the resources. */
module DeploymentComparison {
  import opened Wrappers
  import opened StateValues
  import opened Comparator
  import opened ResourcePairing

  function Member(m: map<string, Value>, k: string): Value {
    if k in m then m[k] else Undef
  }

  function WithoutTime(v: Value): Value {
    if v.Obj? then Obj(v.members["time" := Undef]) else v
  }

  /** What is kept of `metadata`. A secret in its place has no such member. */
  function Integrity(v: Value): Value {
    if v.Obj? then Member(v.members, "integrity_error") else Undef
  }

  function FieldMembers(m: map<string, Value>): map<string, Value> {
    var cleared := m["secrets_providers" := Undef]["resources" := Undef];
    var timeless := if "manifest" in cleared then cleared["manifest" := WithoutTime(cleared["manifest"])] else cleared;
    timeless["metadata" := Integrity(Member(timeless, "metadata"))]
  }

  /** The fields compared; a deployment that is wholly a secret stays one, anything else but an object is empty. */
  function Fields(d: Value): Value {
    match d
    case Resolved(_) => d
    case Unverifiable => d
    case Obj(m) => Obj(FieldMembers(m))
    case _ => Obj(FieldMembers(map[]))
  }

  function Resources(d: Value): seq<Value> {
    if d.Obj? && Member(d.members, "resources").Arr? then Member(d.members, "resources").items else []
  }

  ghost predicate DeploymentsAgree(le: Order, source: Value, target: Value) {
    Agrees(Fields(source), Fields(target)) && ResourcesAgree(le, Resources(source), Resources(target))
  }

  datatype Comparison = Comparison(match_: bool, unverifiable: bool, mismatches: seq<Mismatch>)

  predicate Doubtful(m: Mismatch) {
    m.kind == UnverifiableSecret || m.kind == UnsupportedSchema
  }

  /** A deployment without unverified secrets has none in its fields or resources. */
  lemma CleanParts(d: Value)
    ensures Clean(d) ==> Clean(Fields(d)) && AllClean(Resources(d))
  {
    if Clean(d) && d.Obj? {
      forall k | k in FieldMembers(d.members) ensures Clean(FieldMembers(d.members)[k]) { CleanField(d.members, k); }
      var resources := Member(d.members, "resources");
      if resources.Arr? { CleanItemsOf(resources); }
    } else if !d.Resolved? && !d.Unverifiable? {
      forall k | k in FieldMembers(map[]) ensures Clean(FieldMembers(map[])[k]) { CleanField(map[], k); }
    }
  }

  lemma CleanItemsOf(v: Value)
    requires v.Arr? && Clean(v)
    ensures AllClean(v.items)
  {
  }

  lemma CleanField(m: map<string, Value>, k: string)
    requires Clean(Obj(m)) && k in FieldMembers(m)
    ensures Clean(FieldMembers(m)[k])
  {
    FieldMembersAt(m, k);
  }

  lemma CleanGroup(list: seq<Value>, urn: string)
    requires AllClean(list)
    ensures AllClean(Group(list, urn))
  {
    forall v | v in Group(list, urn) ensures Clean(v) { GroupMembers(list, urn, v); }
  }

  lemma FieldDoubts(fields: seq<Mismatch>, clean: bool)
    requires Entries([], fields, None, clean)
    ensures forall m <- fields :: Doubtful(m) ==> !clean
  {
  }

  lemma DoubtNeedsSecrets(all: seq<Mismatch>, fields: seq<Mismatch>, source: Value, target: Value)
    requires fields <= all
    requires forall m <- fields :: Doubtful(m) ==> !(Clean(Fields(source)) && Clean(Fields(target)))
    requires forall i :: |fields| <= i < |all| ==> ResourceEntryOk(all[i], Resources(source), Resources(target))
    ensures (exists m <- all :: Doubtful(m)) ==> !(Clean(source) && Clean(target))
  {
    hide Fields, Resources, Clean, Group;
    if Clean(source) && Clean(target) {
      CleanParts(source);
      CleanParts(target);
      forall i | 0 <= i < |all| ensures !Doubtful(all[i]) {
        if i < |fields| {
          assert all[i] == fields[i];
          assert fields[i] in fields;
        } else {
          CleanGroup(Resources(source), all[i].urn.value);
          CleanGroup(Resources(target), all[i].urn.value);
        }
      }
    }
  }

  /** Some field differs wherever the secrets can be looked at. */
  ghost predicate DeploymentsDiffer(le: Order, source: Value, target: Value) {
    Differs(Fields(source), Fields(target), true) || ResourcesDiffer(le, Resources(source), Resources(target))
  }

  /** Some place of both holds a secret that could not be verified. */
  ghost predicate DeploymentsDoubt(le: Order, source: Value, target: Value) {
    Doubts(Fields(source), Fields(target)) || ResourcesDoubt(le, Resources(source), Resources(target))
  }

  /** No version is in doubt here, so what is doubtful is a secret. */
  lemma DoubtIsTold(all: seq<Mismatch>, fields: seq<Mismatch>, source: Value, target: Value)
    requires fields <= all && Entries([], fields, None, Clean(Fields(source)) && Clean(Fields(target)))
    requires forall i :: |fields| <= i < |all| ==> ResourceEntryOk(all[i], Resources(source), Resources(target))
    ensures (exists m <- all :: Doubtful(m)) <==> Tells(all, UnverifiableSecret)
  {
    hide Fields, Resources, Clean, Group;
    forall m | m in all ensures m.kind != UnsupportedSchema {
      var i :| 0 <= i < |all| && all[i] == m;
      if i < |fields| { assert all[i] == fields[i]; }
    }
    if Tells(all, UnverifiableSecret) {
      var m :| m in all && m.kind == UnverifiableSecret;
      assert Doubtful(m);
    }
  }

  lemma Verdicts(le: Order, all: seq<Mismatch>, fields: seq<Mismatch>, source: Value, target: Value)
    requires fields <= all && Entries([], fields, None, Clean(Fields(source)) && Clean(Fields(target)))
    requires forall i :: |fields| <= i < |all| ==> ResourceEntryOk(all[i], Resources(source), Resources(target))
    requires Told([], fields, Differs(Fields(source), Fields(target), true), Doubts(Fields(source), Fields(target)))
    requires Told(fields, all, ResourcesDiffer(le, Resources(source), Resources(target)),
                  ResourcesDoubt(le, Resources(source), Resources(target)))
    ensures (exists m <- all :: Doubtful(m)) <==> DeploymentsDoubt(le, source, target)
    ensures Tells(all, FieldMismatch) <==> DeploymentsDiffer(le, source, target)
  {
    hide Fields, Resources, Clean, Differs, Doubts, ResourcesDiffer, ResourcesDoubt, Told, ResourceEntryOk, Entries;
    ToldBoth([], fields, all, Differs(Fields(source), Fields(target), true), Doubts(Fields(source), Fields(target)),
        ResourcesDiffer(le, Resources(source), Resources(target)),
        ResourcesDoubt(le, Resources(source), Resources(target)));
    ToldMeans([], all, DeploymentsDiffer(le, source, target), DeploymentsDoubt(le, source, target));
    assert all[0..] == all;
    DoubtIsTold(all, fields, source, target);
  }

  lemma MatchesWhole(le: Order, all: seq<Mismatch>, fields: seq<Mismatch>, source: Value, target: Value)
    requires Reported([], fields, AgreesAs(Fields(source), Fields(target), true))
    requires Reported(fields, all, ResourcesAgree(le, Resources(source), Resources(target)))
    ensures fields <= all && (all == [] <==> DeploymentsAgree(le, source, target))
  {
    hide Fields, Resources, Agrees, ResourcesAgree;
  }

  /** The comparison of two deployments whose versions can be compared and whose secrets are resolved. */
  method CompareResolved(sig: Order, source: Value, target: Value) returns (r: Comparison)
    ensures r.match_ <==> DeploymentsAgree(PairingOrder(sig), source, target)
    ensures r.match_ <==> r.mismatches == []
    ensures r.unverifiable <==> exists m <- r.mismatches :: Doubtful(m)
    ensures r.unverifiable ==> !(Clean(source) && Clean(target))
    ensures r.unverifiable <==> DeploymentsDoubt(PairingOrder(sig), source, target)
    ensures Tells(r.mismatches, FieldMismatch) <==> DeploymentsDiffer(PairingOrder(sig), source, target)
  {
    hide Fields, Resources, Agrees, ResourcesAgree, Clean, PairingOrder, Differs, Doubts, ResourcesDiffer,
      ResourcesDoubt, Told, ResourceEntryOk, Entries, Reported, DeploymentsAgree, AgreesAs, Doubtful, Tells;
    var out := new Report();
    DiffValues(Fields(source), Fields(target), None, out, true);
    FieldDoubts(out.mismatches, Clean(Fields(source)) && Clean(Fields(target)));
    ghost var fields := out.mismatches;
    CompareResources(sig, Resources(source), Resources(target), out);
    MatchesWhole(PairingOrder(sig), out.mismatches, fields, source, target);
    DoubtNeedsSecrets(out.mismatches, fields, source, target);
    Verdicts(PairingOrder(sig), out.mismatches, fields, source, target);
    var unverifiable := exists m <- out.mismatches :: Doubtful(m);
    return Comparison(out.mismatches == [], unverifiable, out.mismatches);
  }

  // --------------------------------------------------------------------- what the fields' agreement means

  /** The manifests agree when both say the same but for the time; one alone agrees only as a zero scalar or list. */
  predicate ManifestsAgree(m: map<string, Value>, n: map<string, Value>) {
    if "manifest" in m && "manifest" in n then Same(WithoutTime(m["manifest"]), WithoutTime(n["manifest"]))
    else if "manifest" in m then IsZero(m["manifest"]) && !m["manifest"].Obj?
    else if "manifest" in n then IsZero(n["manifest"]) && !n["manifest"].Obj?
    else true
  }

  predicate Special(k: string) {
    k == "secrets_providers" || k == "resources" || k == "manifest" || k == "metadata"
  }

  lemma FieldMembersAt(m: map<string, Value>, k: string)
    ensures !Special(k) ==> (k in FieldMembers(m) <==> k in m) && (k in m ==> FieldMembers(m)[k] == m[k])
    ensures Special(k) && k != "manifest" ==> k in FieldMembers(m)
    ensures FieldMembers(m)["secrets_providers"] == FieldMembers(m)["resources"] == Undef
    ensures FieldMembers(m)["metadata"] == Integrity(Member(m, "metadata"))
    ensures "manifest" in FieldMembers(m) <==> "manifest" in m
    ensures "manifest" in m ==> FieldMembers(m)["manifest"] == WithoutTime(m["manifest"])
  {
    assert "secrets_providers" != "resources" && "manifest" != "metadata" && "secrets_providers" != "metadata"
      && "resources" != "metadata" && "secrets_providers" != "manifest" && "resources" != "manifest" by {
      assert |"secrets_providers"| == 17 && |"resources"| == 9 && "manifest"[1] == 'a' && "metadata"[1] == 'e';
    }
  }

  lemma TimelessIsNotZero(v: Value)
    ensures IsZero(WithoutTime(v)) <==> IsZero(v) && !v.Obj?
  {
    if v.Obj? { assert "time" in v.members["time" := Undef]; }
  }

  lemma FieldAgrees(m: map<string, Value>, n: map<string, Value>, k: string)
    ensures MemberAgrees(FieldMembers(m), FieldMembers(n), k) <==>
            if k == "manifest" then ManifestsAgree(m, n)
            else if k == "metadata" then Same(Integrity(Member(m, k)), Integrity(Member(n, k)))
            else Special(k) || MemberAgrees(m, n, k)
  {
    hide FieldMembers, IsZero, Integrity, WithoutTime;
    FieldMembersAt(m, k);
    FieldMembersAt(n, k);
    if "manifest" in m { TimelessIsNotZero(m["manifest"]); }
    if "manifest" in n { TimelessIsNotZero(n["manifest"]); }
    assert Same(Undef, Undef);
  }

  /** Every key is a key of one side, or agrees because neither has it. */
  lemma AbsentAgrees(m: map<string, Value>, n: map<string, Value>)
    ensures MembersAgree(m, n) <==> forall k: string :: MemberAgrees(m, n, k)
  {
    hide Same, IsZero;
    if MembersAgree(m, n) {
      forall k: string ensures MemberAgrees(m, n, k) {
        if k in m.Keys + n.Keys { assert MemberAgrees(m, n, k); }
      }
    }
  }

  /**
   * The deployments' own fields agree exactly when every field but the four coded ones agrees, the
   * manifests agree but for their time, and the integrity errors are the same.
   */
  lemma FieldsAgreeExactly(m: map<string, Value>, n: map<string, Value>)
    ensures Agrees(Fields(Obj(m)), Fields(Obj(n))) <==>
            && (forall k: string :: Special(k) || MemberAgrees(m, n, k))
            && ManifestsAgree(m, n)
            && Same(Integrity(Member(m, "metadata")), Integrity(Member(n, "metadata")))
  {
    hide FieldMembers, MemberAgrees, ManifestsAgree, Same, Integrity, MembersAgree, Special;
    AbsentAgrees(FieldMembers(m), FieldMembers(n));
    forall k: string
      ensures MemberAgrees(FieldMembers(m), FieldMembers(n), k) <==>
              if k == "manifest" then ManifestsAgree(m, n)
              else if k == "metadata" then Same(Integrity(Member(m, k)), Integrity(Member(n, k)))
              else Special(k) || MemberAgrees(m, n, k)
    {
      FieldAgrees(m, n, k);
    }
    SpecialNames();
    if Agrees(Fields(Obj(m)), Fields(Obj(n))) {
      assert MemberAgrees(FieldMembers(m), FieldMembers(n), "manifest");
      assert MemberAgrees(FieldMembers(m), FieldMembers(n), "metadata");
      forall k: string ensures Special(k) || MemberAgrees(m, n, k) {
        assert MemberAgrees(FieldMembers(m), FieldMembers(n), k);
      }
    }
  }

  lemma SpecialNames()
    ensures Special("manifest") && Special("metadata") && "manifest" != "metadata"
  {
    assert "manifest"[1] == 'a' && "metadata"[1] == 'e';
  }

  /** So an empty manifest on one side only is always reported, although an empty object is a zero value. */
  lemma LoneManifestDiffers(m: map<string, Value>, n: map<string, Value>)
    requires "manifest" in m && m["manifest"].Obj? && "manifest" !in n
    ensures !Agrees(Fields(Obj(m)), Fields(Obj(n)))
    ensures IsZero(Obj(map[]))
  {
    hide MemberAgrees, Same, Integrity, Agrees;
    FieldsAgreeExactly(m, n);
  }

  // --------------------------------------------------------------------- the main result

  /** Fields and resources agree one by one. */
  ghost predicate StatesAgree(source: map<string, Value>, target: map<string, Value>) {
    && (forall k: string :: Special(k) || MemberAgrees(source, target, k))
    && ManifestsAgree(source, target)
    && Same(Integrity(Member(source, "metadata")), Integrity(Member(target, "metadata")))
    && PairwiseAgree(Resources(Obj(source)), Resources(Obj(target)))
  }

  /** On resolved deployments with distinct URNs agreement is agreement field by field. */
  lemma AgreementIsExact(le: Order, source: map<string, Value>, target: map<string, Value>)
    requires Distinct(Resources(Obj(source))) && Distinct(Resources(Obj(target)))
    ensures DeploymentsAgree(le, Obj(source), Obj(target)) <==> StatesAgree(source, target)
  {
    hide Agrees, MemberAgrees, ManifestsAgree, Same, ResourcesAgree, PairwiseAgree, Resources, Fields, Integrity,
        Special;
    FieldsAgreeExactly(source, target);
    DistinctIsExact(le, Resources(Obj(source)), Resources(Obj(target)));
  }
}
