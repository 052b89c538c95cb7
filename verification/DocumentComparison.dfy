/**
 * The comparison of two deployment documents: versions checked, the secrets of each side resolved,
 * and what is then compared, told in terms of the documents.
 */
module DocumentComparison {
  import opened Wrappers
  import opened StateValues
  import opened Comparator
  import opened ResourcePairing
  import opened DeploymentComparison

  const MAX_COMPARABLE_DEPLOYMENT_SCHEMA_VERSION := 3

  /** An envelope's version: left out or null, a number, or anything else. */
  datatype Version = NoVersion | Number(n: int) | NotAnInteger

  predicate Comparable(v: Version) {
    v.NoVersion? || (v.Number? && v.n <= MAX_COMPARABLE_DEPLOYMENT_SCHEMA_VERSION)
  }

  /** One side: the envelope's version, the deployment, and what its ciphertexts decrypt to. */
  datatype Side = Side(version: Version, document: Json, decrypted: map<string, string>)

  /** How plaintexts are read, and how much call stack there is for resolving. */
  datatype Setting = Setting(read: Reader, depth: nat)

  function ResolvedSide(side: Side, x: Setting): Option<Value> {
    Resolve(side.document, side.decrypted, x.read, x.depth)
  }

  predicate BothResolve(source: Side, target: Side, x: Setting) {
    ResolvedSide(source, x).Some? && ResolvedSide(target, x).Some?
  }

  ghost predicate DocumentsMatch(sig: Order, source: Side, target: Side, x: Setting) {
    && Comparable(source.version) && Comparable(target.version) && BothResolve(source, target, x)
    && DeploymentsAgree(PairingOrder(sig), ResolvedSide(source, x).value, ResolvedSide(target, x).value)
  }

  predicate AllDecryptable(side: Side, x: Setting) {
    Decryptable(side.document, side.decrypted, x.read, x.depth)
  }

  /** The comparison; none when resolving a side overflows the call stack. */
  method CompareDeploymentState(sig: Order, source: Side, target: Side, x: Setting) returns (r: Option<Comparison>)
    ensures r.None? <==> Comparable(source.version) && Comparable(target.version) && !BothResolve(source, target, x)
    ensures r.Some? ==>
      && (r.value.match_ <==> DocumentsMatch(sig, source, target, x))
      && (r.value.match_ <==> r.value.mismatches == [])
      && (r.value.unverifiable <==> exists m <- r.value.mismatches :: Doubtful(m))
      && (r.value.unverifiable <==>
            !Comparable(source.version) || !Comparable(target.version)
            || DeploymentsDoubt(PairingOrder(sig), ResolvedSide(source, x).value, ResolvedSide(target, x).value))
      && (r.value.unverifiable && Comparable(source.version) && Comparable(target.version) ==>
            !(AllDecryptable(source, x) && AllDecryptable(target, x)))
  {
    hide DeploymentsAgree, Clean, Resolve, Decryptable;
    var out := new Report();
    if !Comparable(source.version) { out.Add(None, UnsupportedSchema); }
    if !Comparable(target.version) { out.Add(None, UnsupportedSchema); }
    if out.mismatches != [] {
      assert Doubtful(out.mismatches[0]);
      return Some(Comparison(false, true, out.mismatches));
    }
    var s, t := ResolvedSide(source, x), ResolvedSide(target, x);
    if s.None? || t.None? { return None; }
    CleanExactlyWhenDecrypted(source.document, source.decrypted, x.read, x.depth);
    CleanExactlyWhenDecrypted(target.document, target.decrypted, x.read, x.depth);
    var compared := CompareResolved(sig, s.value, t.value);
    return Some(compared);
  }

  /** A comparison of two documents ends, given stack enough, exactly when neither holds a cycle of envelopes. */
  lemma ComparisonEndsExactly(source: Side, target: Side, read: Reader)
    requires Shrinks(read, source.decrypted) && Shrinks(read, target.decrypted)
    ensures (exists depth: nat :: BothResolve(source, target, Setting(read, depth))) <==>
            !HoldsCycle(source.document, source.decrypted, read) && !HoldsCycle(target.document, target.decrypted, read)
  {
    hide Resolve, HoldsCycle, Shrinks;
    ResolvingEndsExactly(source.document, source.decrypted, read);
    ResolvingEndsExactly(target.document, target.decrypted, read);
    if exists depth: nat :: BothResolve(source, target, Setting(read, depth)) {
      var depth: nat :| BothResolve(source, target, Setting(read, depth));
      assert Resolve(source.document, source.decrypted, read, depth).Some?;
      assert Resolve(target.document, target.decrypted, read, depth).Some?;
    }
    if !HoldsCycle(source.document, source.decrypted, read) && !HoldsCycle(target.document, target.decrypted, read) {
      var a: nat :| Resolve(source.document, source.decrypted, read, a).Some?;
      var b: nat :| Resolve(target.document, target.decrypted, read, b).Some?;
      var depth := if a < b then b else a;
      DeeperIsSame(source.document, source.decrypted, read, a, depth);
      DeeperIsSame(target.document, target.decrypted, read, b, depth);
      assert BothResolve(source, target, Setting(read, depth));
    }
  }

  // --------------------------------------------------------------------- agreement told of the documents

  /** Two parts of the documents say the same, every secret in them had. */
  predicate SameParts(source: Side, target: Side, x: Setting, a: Json, b: Json) {
    SameOnceDecrypted(a, b, source.decrypted, target.decrypted, x.read, x.depth)
  }

  predicate Plain(v: Json) {
    v.JObj? && !IsEnvelope(v)
  }

  predicate JsonZero(v: Json) {
    v == JNull || v == JBool(false) || v == JStr("") || v == JNum(0) || v == JArr([]) || v == JObj(map[])
  }

  predicate PartAgrees(source: Side, target: Side, x: Setting, m: map<string, Json>, n: map<string, Json>, k: string) {
    if k in m && k in n then SameParts(source, target, x, m[k], n[k])
    else if k in m then JsonZero(m[k])
    else if k in n then JsonZero(n[k])
    else true
  }

  /** Two resources agree: member by member but for zero values left out, or the same. */
  predicate JsonAgrees(source: Side, target: Side, x: Setting, a: Json, b: Json) {
    if Plain(a) && Plain(b) then
      forall k <- a.members.Keys + b.members.Keys :: PartAgrees(source, target, x, a.members, b.members, k)
    else SameParts(source, target, x, a, b)
  }

  function JsonUrn(v: Json): string {
    if Plain(v) && "urn" in v.members && v.members["urn"].JStr? then v.members["urn"].s else ""
  }

  function JsonResources(m: map<string, Json>): seq<Json> {
    if "resources" in m && m["resources"].JArr? then m["resources"].items else []
  }

  predicate DistinctUrns(list: seq<Json>) {
    forall i, j :: 0 <= i < j < |list| ==> JsonUrn(list[i]) != JsonUrn(list[j])
  }

  function JsonUrns(list: seq<Json>): set<string> {
    set v <- list :: JsonUrn(v)
  }

  predicate JsonPairwise(source: Side, target: Side, x: Setting, a: seq<Json>, b: seq<Json>) {
    && JsonUrns(a) == JsonUrns(b)
    && forall i, j :: 0 <= i < |a| && 0 <= j < |b| && JsonUrn(a[i]) == JsonUrn(b[j]) ==>
         JsonAgrees(source, target, x, a[i], b[j])
  }

  predicate SameButTime(source: Side, target: Side, x: Setting, m: map<string, Json>, n: map<string, Json>) {
    forall k <- m.Keys + n.Keys :: k == "time" || (k in m && k in n && SameParts(source, target, x, m[k], n[k]))
  }

  /** Manifests say the same but for the time; one alone agrees only as a zero scalar or list. */
  predicate JsonManifestsAgree(source: Side, target: Side, x: Setting, m: map<string, Json>, n: map<string, Json>) {
    if "manifest" in m && "manifest" in n then
      var a, b := m["manifest"], n["manifest"];
      if Plain(a) && Plain(b) then SameButTime(source, target, x, a.members, b.members)
      else SameParts(source, target, x, a, b)
    else if "manifest" in m then JsonZero(m["manifest"]) && !m["manifest"].JObj?
    else if "manifest" in n then JsonZero(n["manifest"]) && !n["manifest"].JObj?
    else true
  }

  function JsonIntegrity(m: map<string, Json>): Option<Json> {
    if "metadata" in m && Plain(m["metadata"]) && "integrity_error" in m["metadata"].members
    then Some(m["metadata"].members["integrity_error"]) else None
  }

  predicate IntegrityAgrees(source: Side, target: Side, x: Setting, m: map<string, Json>, n: map<string, Json>) {
    var a, b := JsonIntegrity(m), JsonIntegrity(n);
    (a.Some? <==> b.Some?) && (a.Some? && b.Some? ==> SameParts(source, target, x, a.value, b.value))
  }

  /** What a match says of two documents whose URNs are distinct on each side. */
  predicate SayTheSame(source: Side, target: Side, x: Setting, m: map<string, Json>, n: map<string, Json>) {
    && (forall k <- m.Keys + n.Keys :: Special(k) || PartAgrees(source, target, x, m, n, k))
    && JsonManifestsAgree(source, target, x, m, n)
    && IntegrityAgrees(source, target, x, m, n)
    && JsonPairwise(source, target, x, JsonResources(m), JsonResources(n))
  }

  function SourceValue(source: Side, x: Setting, a: Json): Option<Value> {
    Resolve(a, source.decrypted, x.read, x.depth)
  }

  /** What a part resolves to on its side. */
  lemma PartsResolve(side: Side, x: Setting, v: Json)
    requires SourceValue(side, x, v).Some?
    ensures SourceValue(side, x, v).value.Obj? <==> Plain(v)
    ensures IsZero(SourceValue(side, x, v).value) <==> JsonZero(v)
    ensures SourceValue(side, x, v).value != Undef
    ensures SourceValue(side, x, v).value.Arr? <==> v.JArr?
    ensures SourceValue(side, x, v).value.Str? <==> v.JStr?
    ensures v.JStr? ==> SourceValue(side, x, v).value == Str(v.s)
  {
    match v {
      case JArr(items) => assert items == [] ==> SourceValue(side, x, v).value.items == [];
      case JObj(members) =>
        if !IsEnvelope(v) {
          assert members.Keys == SourceValue(side, x, v).value.members.Keys;
          if members == map[] { assert SourceValue(side, x, v).value.members == map[]; }
          if SourceValue(side, x, v).value.members == map[] { assert members == map[]; }
        }
      case _ =>
    }
  }

  lemma MembersResolve(side: Side, x: Setting, v: Json)
    requires Plain(v) && SourceValue(side, x, v).Some?
    ensures var r := SourceValue(side, x, v).value;
            && r.Obj? && r.members.Keys == v.members.Keys
            && forall k <- v.members ::
                 SourceValue(side, x, v.members[k]).Some? && r.members[k] == SourceValue(side, x, v.members[k]).value
  {
  }

  lemma ItemsResolve(side: Side, x: Setting, v: Json)
    requires v.JArr? && SourceValue(side, x, v).Some?
    ensures var r := SourceValue(side, x, v).value;
            && r.Arr? && |r.items| == |v.items|
            && forall i :: 0 <= i < |v.items| ==>
                 SourceValue(side, x, v.items[i]).Some? && r.items[i] == SourceValue(side, x, v.items[i]).value
  {
  }

  /** Equality of two resolved parts is sameness of the parts. */
  lemma SameMeans(source: Side, target: Side, x: Setting, a: Json, b: Json)
    requires SourceValue(source, x, a).Some? && SourceValue(target, x, b).Some?
    ensures Same(SourceValue(source, x, a).value, SourceValue(target, x, b).value)
            <==> SameParts(source, target, x, a, b)
  {
    hide Resolve, Clean, Reencrypted, Decryptable;
    ResolveAlikeExactly(a, b, source.decrypted, target.decrypted, x.read, x.depth);
  }

  lemma MemberMeans(source: Side, target: Side, x: Setting, a: Json, b: Json, k: string)
    requires Plain(a) && Plain(b) && SourceValue(source, x, a).Some? && SourceValue(target, x, b).Some?
    ensures var r, t := SourceValue(source, x, a).value, SourceValue(target, x, b).value;
            && r.Obj? && t.Obj?
            && (MemberAgrees(r.members, t.members, k) <==> PartAgrees(source, target, x, a.members, b.members, k))
  {
    hide SourceValue, Same, SameParts, IsZero, JsonZero;
    MembersResolve(source, x, a);
    MembersResolve(target, x, b);
    if k in a.members { PartsResolve(source, x, a.members[k]); }
    if k in b.members { PartsResolve(target, x, b.members[k]); }
    if k in a.members && k in b.members { SameMeans(source, target, x, a.members[k], b.members[k]); }
  }

  lemma AgreesMeans(source: Side, target: Side, x: Setting, a: Json, b: Json)
    requires SourceValue(source, x, a).Some? && SourceValue(target, x, b).Some?
    ensures Agrees(SourceValue(source, x, a).value, SourceValue(target, x, b).value)
            <==> JsonAgrees(source, target, x, a, b)
  {
    hide SourceValue, Same, SameParts, MemberAgrees, PartAgrees;
    PartsResolve(source, x, a);
    PartsResolve(target, x, b);
    if Plain(a) && Plain(b) {
      MembersResolve(source, x, a);
      MembersResolve(target, x, b);
      forall k: string
        ensures MemberAgrees(SourceValue(source, x, a).value.members, SourceValue(target, x, b).value.members, k)
                <==> PartAgrees(source, target, x, a.members, b.members, k)
      {
        MemberMeans(source, target, x, a, b, k);
      }
    } else {
      SameMeans(source, target, x, a, b);
    }
  }

  // --------------------------------------------------------------------- the parts of a deployment

  lemma TimelessAt(a: Value, b: Value, k: string)
    requires a.Obj? && b.Obj? && WithoutTime(a) == WithoutTime(b) && k != "time"
    ensures k in a.members <==> k in b.members
    ensures k in a.members ==> a.members[k] == b.members[k]
  {
    var m, n := a.members["time" := Undef], b.members["time" := Undef];
    assert m == n;
    assert k in m <==> k in n;
    if k in m { assert m[k] == n[k]; }
  }

  lemma TimelessClean(a: Value, k: string)
    requires a.Obj? && Clean(WithoutTime(a)) && k in a.members && k != "time"
    ensures Clean(a.members[k])
  {
    assert a.members["time" := Undef][k] == a.members[k];
  }

  /** Objects are the same without their times exactly when their other members are the same. */
  lemma SameTimeless(a: Value, b: Value)
    requires a.Obj? && b.Obj?
    ensures Same(WithoutTime(a), WithoutTime(b)) <==>
            forall k <- a.members.Keys + b.members.Keys ::
              k == "time" || (k in a.members && k in b.members && Same(a.members[k], b.members[k]))
  {
    if Same(WithoutTime(a), WithoutTime(b)) {
      forall k | k in a.members.Keys + b.members.Keys && k != "time"
        ensures k in a.members && k in b.members && Same(a.members[k], b.members[k])
      {
        TimelessAt(a, b, k);
        TimelessClean(a, k);
      }
    } else if forall k <- a.members.Keys + b.members.Keys ::
                k == "time" || (k in a.members && k in b.members && Same(a.members[k], b.members[k])) {
      var m, n := a.members["time" := Undef], b.members["time" := Undef];
      assert m.Keys == n.Keys;
      assert m == n;
      assert forall k <- m :: Clean(m[k]);
    }
  }

  lemma ManifestMeans(source: Side, target: Side, x: Setting, a: Json, b: Json)
    requires SourceValue(source, x, a).Some? && SourceValue(target, x, b).Some?
    ensures Same(WithoutTime(SourceValue(source, x, a).value), WithoutTime(SourceValue(target, x, b).value))
            <==> if Plain(a) && Plain(b) then SameButTime(source, target, x, a.members, b.members)
                 else SameParts(source, target, x, a, b)
  {
    hide SourceValue, Same, SameParts, WithoutTime;
    var r, t := SourceValue(source, x, a).value, SourceValue(target, x, b).value;
    PartsResolve(source, x, a);
    PartsResolve(target, x, b);
    if Plain(a) && Plain(b) {
      MembersResolve(source, x, a);
      MembersResolve(target, x, b);
      SameTimeless(r, t);
      forall k | k in a.members && k in b.members
        ensures Same(r.members[k], t.members[k]) <==> SameParts(source, target, x, a.members[k], b.members[k])
      {
        SameMeans(source, target, x, a.members[k], b.members[k]);
      }
    } else {
      SameMeans(source, target, x, a, b);
      TimelessShape(r, t);
    }
  }

  lemma TimelessShape(r: Value, t: Value)
    requires !r.Obj? || !t.Obj?
    ensures Same(WithoutTime(r), WithoutTime(t)) <==> Same(r, t)
  {
  }

  lemma ManifestsMean(source: Side, target: Side, x: Setting, a: Json, b: Json)
    requires Plain(a) && Plain(b) && SourceValue(source, x, a).Some? && SourceValue(target, x, b).Some?
    ensures SourceValue(source, x, a).value.Obj? && SourceValue(target, x, b).value.Obj?
    ensures ManifestsAgree(SourceValue(source, x, a).value.members, SourceValue(target, x, b).value.members)
            <==> JsonManifestsAgree(source, target, x, a.members, b.members)
  {
    hide SourceValue, Same, SameParts, WithoutTime, IsZero, JsonZero;
    MembersResolve(source, x, a);
    MembersResolve(target, x, b);
    var m, n := a.members, b.members;
    if "manifest" in m && "manifest" in n {
      ManifestMeans(source, target, x, m["manifest"], n["manifest"]);
    } else if "manifest" in m {
      PartsResolve(source, x, m["manifest"]);
      if JsonZero(m["manifest"]) { ZeroObject(m["manifest"]); }
    } else if "manifest" in n {
      PartsResolve(target, x, n["manifest"]);
      if JsonZero(n["manifest"]) { ZeroObject(n["manifest"]); }
    }
  }

  lemma ZeroObject(v: Json)
    requires JsonZero(v)
    ensures v.JObj? ==> Plain(v)
  {
  }

  /** What is kept of `metadata` is what the document's integrity error resolves to. */
  lemma IntegrityResolves(side: Side, x: Setting, a: Json)
    requires Plain(a) && SourceValue(side, x, a).Some?
    ensures SourceValue(side, x, a).value.Obj?
    ensures var kept := Integrity(Member(SourceValue(side, x, a).value.members, "metadata"));
            match JsonIntegrity(a.members)
            case None => kept == Undef
            case Some(v) => SourceValue(side, x, v).Some? && kept == SourceValue(side, x, v).value && kept != Undef
  {
    hide SourceValue;
    MembersResolve(side, x, a);
    if "metadata" in a.members {
      var meta := a.members["metadata"];
      PartsResolve(side, x, meta);
      if Plain(meta) {
        MembersResolve(side, x, meta);
        if "integrity_error" in meta.members { PartsResolve(side, x, meta.members["integrity_error"]); }
      }
    }
  }

  lemma IntegrityMeans(source: Side, target: Side, x: Setting, a: Json, b: Json)
    requires Plain(a) && Plain(b) && SourceValue(source, x, a).Some? && SourceValue(target, x, b).Some?
    ensures SourceValue(source, x, a).value.Obj? && SourceValue(target, x, b).value.Obj?
    ensures Same(Integrity(Member(SourceValue(source, x, a).value.members, "metadata")),
                 Integrity(Member(SourceValue(target, x, b).value.members, "metadata")))
            <==> IntegrityAgrees(source, target, x, a.members, b.members)
  {
    hide SourceValue, SameParts, JsonIntegrity, Integrity;
    IntegrityResolves(source, x, a);
    IntegrityResolves(target, x, b);
    var v, w := JsonIntegrity(a.members), JsonIntegrity(b.members);
    if v.Some? && w.Some? { SameMeans(source, target, x, v.value, w.value); }
  }

  lemma UrnResolves(side: Side, x: Setting, v: Json)
    requires SourceValue(side, x, v).Some?
    ensures UrnOf(SourceValue(side, x, v).value) == JsonUrn(v)
  {
    hide SourceValue;
    PartsResolve(side, x, v);
    if Plain(v) {
      MembersResolve(side, x, v);
      if "urn" in v.members { PartsResolve(side, x, v.members["urn"]); }
    }
  }

  /** The resources compared are what the document's resources resolve to, one by one. */
  lemma ResourcesResolve(side: Side, x: Setting, a: Json)
    requires Plain(a) && SourceValue(side, x, a).Some?
    ensures SourceValue(side, x, a).value.Obj?
    ensures var list, values := JsonResources(a.members), Resources(SourceValue(side, x, a).value);
            && |values| == |list|
            && forall i :: 0 <= i < |list| ==>
                 && SourceValue(side, x, list[i]).Some? && values[i] == SourceValue(side, x, list[i]).value
                 && UrnOf(values[i]) == JsonUrn(list[i])
  {
    hide SourceValue, UrnOf, JsonUrn;
    MembersResolve(side, x, a);
    if "resources" in a.members {
      var v := a.members["resources"];
      PartsResolve(side, x, v);
      if v.JArr? {
        ItemsResolve(side, x, v);
        forall i | 0 <= i < |v.items|
          ensures UrnOf(SourceValue(side, x, v.items[i]).value) == JsonUrn(v.items[i])
        {
          UrnResolves(side, x, v.items[i]);
        }
      }
    }
  }

  lemma UrnsAlike(values: seq<Value>, list: seq<Json>)
    requires |values| == |list| && forall i :: 0 <= i < |list| ==> UrnOf(values[i]) == JsonUrn(list[i])
    ensures Urns(values) == JsonUrns(list)
    ensures Distinct(values) <==> DistinctUrns(list)
  {
    hide UrnOf, JsonUrn;
    forall u ensures u in Urns(values) <==> u in JsonUrns(list) {
      if u in Urns(values) {
        var i :| 0 <= i < |values| && UrnOf(values[i]) == u;
        assert list[i] in list;
      }
      if u in JsonUrns(list) {
        var i :| 0 <= i < |list| && JsonUrn(list[i]) == u;
        assert values[i] in values;
      }
    }
  }

  lemma PairwiseMeans(source: Side, target: Side, x: Setting, a: Json, b: Json)
    requires Plain(a) && Plain(b) && SourceValue(source, x, a).Some? && SourceValue(target, x, b).Some?
    ensures PairwiseAgree(Resources(SourceValue(source, x, a).value), Resources(SourceValue(target, x, b).value))
            <==> JsonPairwise(source, target, x, JsonResources(a.members), JsonResources(b.members))
    ensures Distinct(Resources(SourceValue(source, x, a).value)) <==> DistinctUrns(JsonResources(a.members))
    ensures Distinct(Resources(SourceValue(target, x, b).value)) <==> DistinctUrns(JsonResources(b.members))
  {
    hide SourceValue, UrnOf, JsonUrn, Resources, JsonResources, Agrees, JsonAgrees, Urns, JsonUrns, Distinct,
      DistinctUrns;
    ResourcesResolve(source, x, a);
    ResourcesResolve(target, x, b);
    var p, q := JsonResources(a.members), JsonResources(b.members);
    var s, t := Resources(SourceValue(source, x, a).value), Resources(SourceValue(target, x, b).value);
    UrnsAlike(s, p);
    UrnsAlike(t, q);
    forall i, j | 0 <= i < |p| && 0 <= j < |q|
      ensures Agrees(s[i], t[j]) <==> JsonAgrees(source, target, x, p[i], q[j])
    {
      AgreesMeans(source, target, x, p[i], q[j]);
    }
  }

  // --------------------------------------------------------------------- the main result

  /** Values' fields agree as the documents' fields do. */
  lemma StatesMean(source: Side, target: Side, x: Setting, a: Json, b: Json)
    requires Plain(a) && Plain(b) && SourceValue(source, x, a).Some? && SourceValue(target, x, b).Some?
    ensures SourceValue(source, x, a).value.Obj? && SourceValue(target, x, b).value.Obj?
    ensures StatesAgree(SourceValue(source, x, a).value.members, SourceValue(target, x, b).value.members)
            <==> SayTheSame(source, target, x, a.members, b.members)
  {
    hide SourceValue, Resources, JsonResources, MemberAgrees, PartAgrees, Special, PairwiseAgree, JsonPairwise,
      ManifestsAgree, JsonManifestsAgree, Integrity, IntegrityAgrees, Same;
    MembersResolve(source, x, a);
    MembersResolve(target, x, b);
    ManifestsMean(source, target, x, a, b);
    IntegrityMeans(source, target, x, a, b);
    PairwiseMeans(source, target, x, a, b);
    forall k: string
      ensures MemberAgrees(SourceValue(source, x, a).value.members, SourceValue(target, x, b).value.members, k)
              <==> PartAgrees(source, target, x, a.members, b.members, k)
      ensures k !in a.members && k !in b.members ==> PartAgrees(source, target, x, a.members, b.members, k)
    {
      MemberMeans(source, target, x, a, b, k);
      AbsentPartAgrees(source, target, x, a.members, b.members, k);
    }
  }

  lemma AbsentPartAgrees(source: Side, target: Side, x: Setting, m: map<string, Json>, n: map<string, Json>, k: string)
    ensures k !in m && k !in n ==> PartAgrees(source, target, x, m, n, k)
  {
  }

  lemma ObjectsMatch(sig: Order, source: Side, target: Side, x: Setting)
    requires Plain(source.document) && Plain(target.document)
    requires DistinctUrns(JsonResources(source.document.members))
    requires DistinctUrns(JsonResources(target.document.members))
    ensures DocumentsMatch(sig, source, target, x) <==>
            && Comparable(source.version) && Comparable(target.version) && BothResolve(source, target, x)
            && SayTheSame(source, target, x, source.document.members, target.document.members)
  {
    hide Resources, JsonResources, StatesAgree, SayTheSame, DeploymentsAgree, Distinct, DistinctUrns, PairingOrder,
      Resolve;
    var a, b := source.document, target.document;
    if BothResolve(source, target, x) {
      assert SourceValue(source, x, a).Some? && SourceValue(target, x, b).Some?;
      StatesMean(source, target, x, a, b);
      PairwiseMeans(source, target, x, a, b);
      AgreementIsExact(
        PairingOrder(sig), SourceValue(source, x, a).value.members, SourceValue(target, x, b).value.members);
    }
  }

  /** The members of a deployment; what is no object has none. */
  function MembersOf(v: Json): map<string, Json> {
    if Plain(v) then v.members else map[]
  }

  /** The side with what its document is compared as, when that is not wholly a secret. */
  function AsObject(side: Side): Side {
    side.(document := JObj(MembersOf(side.document)))
  }

  lemma NoObjectIsEmpty(side: Side, x: Setting)
    requires !IsEnvelope(side.document) && ResolvedSide(side, x).Some?
    ensures Plain(AsObject(side).document) && AsObject(side).document.members == MembersOf(side.document)
    ensures ResolvedSide(AsObject(side), x).Some?
    ensures Fields(ResolvedSide(side, x).value) == Fields(ResolvedSide(AsObject(side), x).value)
    ensures Resources(ResolvedSide(side, x).value) == Resources(ResolvedSide(AsObject(side), x).value)
  {
    if Plain(side.document) {
      assert AsObject(side) == side;
    } else {
      assert ResolvedSide(AsObject(side), x).value.members == map[];
    }
  }

  /** Saying the same depends on the sides for what their ciphertexts decrypt to only. */
  lemma SameSaying(source: Side, target: Side, x: Setting, m: map<string, Json>, n: map<string, Json>)
    ensures SayTheSame(AsObject(source), AsObject(target), x, m, n) <==> SayTheSame(source, target, x, m, n)
  {
    var s, t := AsObject(source), AsObject(target);
    forall a, b ensures SameParts(s, t, x, a, b) <==> SameParts(source, target, x, a, b) {}
    hide SameParts, AsObject, JsonZero, IsEnvelope;
    forall k: string, p, q ensures PartAgrees(s, t, x, p, q, k) <==> PartAgrees(source, target, x, p, q, k) {}
    hide PartAgrees;
    forall a, b ensures JsonAgrees(s, t, x, a, b) <==> JsonAgrees(source, target, x, a, b) {}
    hide JsonAgrees, JsonUrn, JsonResources;
  }

  /** What a match says of any two documents: a deployment that is wholly a secret agrees only with such a one. */
  predicate DocumentsAgree(source: Side, target: Side, x: Setting) {
    if IsEnvelope(source.document) || IsEnvelope(target.document) then
      SameParts(source, target, x, source.document, target.document)
    else SayTheSame(source, target, x, MembersOf(source.document), MembersOf(target.document))
  }

  /** A secret deployment has no resources, and agrees with what it is the same as. */
  lemma SecretsMatch(le: Order, source: Side, target: Side, x: Setting)
    requires IsEnvelope(source.document) || IsEnvelope(target.document)
    requires BothResolve(source, target, x)
    ensures DeploymentsAgree(le, ResolvedSide(source, x).value, ResolvedSide(target, x).value)
            <==> SameParts(source, target, x, source.document, target.document)
  {
    hide SameParts, SourceValue, Clean, IsZero;
    var s, t := ResolvedSide(source, x).value, ResolvedSide(target, x).value;
    SecretShape(source, x);
    SecretShape(target, x);
    SameMeans(source, target, x, source.document, target.document);
    if IsEnvelope(source.document) && IsEnvelope(target.document) {
      assert Resources(s) == [] && Resources(t) == [];
    }
  }

  /** A document resolves to a secret exactly when it is wholly one. */
  lemma SecretShape(side: Side, x: Setting)
    requires ResolvedSide(side, x).Some?
    ensures ResolvedSide(side, x).value.Resolved? || ResolvedSide(side, x).value.Unverifiable?
            <==> IsEnvelope(side.document)
    ensures SourceValue(side, x, side.document) == ResolvedSide(side, x)
  {
  }

  /**
   * Comparator exactness: two documents with distinct URNs on each side match exactly when their
   * versions can be compared, resolving ends on both, and they say the same field by field, every
   * secret by what it decrypts to.
   */
  lemma MatchIsExact(sig: Order, source: Side, target: Side, x: Setting)
    requires DistinctUrns(JsonResources(MembersOf(source.document)))
    requires DistinctUrns(JsonResources(MembersOf(target.document)))
    ensures DocumentsMatch(sig, source, target, x) <==>
            && (source.version.NoVersion? || (source.version.Number? && source.version.n <= 3))
            && (target.version.NoVersion? || (target.version.Number? && target.version.n <= 3))
            && BothResolve(source, target, x)
            && DocumentsAgree(source, target, x)
  {
    hide Resources, JsonResources, Fields, SayTheSame, Agrees, ResourcesAgree, DistinctUrns, PairingOrder, Resolve,
      IsEnvelope, SameParts, MembersOf;
    if !BothResolve(source, target, x) {
    } else if IsEnvelope(source.document) || IsEnvelope(target.document) {
      SecretsMatch(PairingOrder(sig), source, target, x);
    } else {
      NoObjectIsEmpty(source, x);
      NoObjectIsEmpty(target, x);
      ObjectsMatch(sig, AsObject(source), AsObject(target), x);
      SameSaying(source, target, x, MembersOf(source.document), MembersOf(target.document));
    }
  }

  lemma SameValueAgrees(sig: Order, v: Value)
    requires TotalOrder(sig) && Clean(v)
    ensures DeploymentsAgree(PairingOrder(sig), v, v)
  {
    hide Fields, Resources, TotalOrder, Clean, Agrees, PairingOrder;
    CleanParts(v);
    PairingOrderIsTotal(sig);
    AgreesWithItself(Fields(v));
    PermutationMatches(PairingOrder(sig), Resources(v), Resources(v));
  }

  /** Migration under another key always matches: a document whose secrets can all be had, encrypted anew. */
  lemma ReencryptedMatches(sig: Order, source: Side, target: Side, x: Setting)
    requires TotalOrder(sig) && Comparable(source.version) && Comparable(target.version)
    requires SameParts(source, target, x, source.document, target.document)
    ensures DocumentsMatch(sig, source, target, x)
  {
    hide Resolve, Reencrypted, Decryptable, DeploymentsAgree, TotalOrder, PairingOrder;
    ResolveAlikeExactly(source.document, target.document, source.decrypted, target.decrypted, x.read, x.depth);
    SameValueAgrees(sig, ResolvedSide(source, x).value);
  }
}
