/** Elasticsearch.initSecurityProperties, as a specification: for each of the
    two DNS-cache security properties, a system property "es.<name>" may
    override it; the override is normalised by Integer.valueOf followed by
    Integer.toString, and a value that does not parse aborts the method with
    an IllegalArgumentException. Only a normal completion turns on
    "policy.expandProperties". Nothing set before the exception is undone. */
module SecurityOverrides {
  import opened JavaLang

  const CacheTtl: string := "networkaddress.cache.ttl"
  const NegativeCacheTtl: string := "networkaddress.cache.negative.ttl"

  /** The security properties that may be overridden, in the order visited. */
  const OverridableProperties: seq<string> := [CacheTtl, NegativeCacheTtl]

  const ExpandProperties: string := "policy.expandProperties"

  /** The system property that overrides a security property. */
  function OverrideName(property: string): string
  {
    "es." + property
  }

  /** The message of the IllegalArgumentException thrown for a bad override. */
  function ParseFailure(overrideProperty: string, value: string): string
  {
    "failed to parse [" + overrideProperty + "] with value [" + value + "]"
  }

  /** The security properties after the run, and the message of the
      exception that ended it, if one did. */
  datatype Outcome = Outcome(props: map<string, string>, failure: Option<string>)

  /** The override of `property` is set but Integer.valueOf rejects it. */
  predicate Rejected(system: map<string, string>, property: string)
  {
    OverrideName(property) in system && ParseInt(system[OverrideName(property)]).None?
  }

  /** The loop body applied to each name in turn, stopping at the first
      override that does not parse. */
  function ApplyOverrides(system: map<string, string>, security: map<string, string>, names: seq<string>): Outcome
    decreases |names|
  {
    if names == [] then Outcome(security, None)
    else
      var overrideProperty := OverrideName(names[0]);
      if overrideProperty !in system then ApplyOverrides(system, security, names[1..])
      else
        match ParseInt(system[overrideProperty])
        case None => Outcome(security, Some(ParseFailure(overrideProperty, system[overrideProperty])))
        case Some(v) => ApplyOverrides(system, security[names[0] := IntToString(v)], names[1..])
  }

  /** The whole of initSecurityProperties. */
  function InitSecurityProperties(system: map<string, string>, security: map<string, string>): Outcome
  {
    var o := ApplyOverrides(system, security, OverridableProperties);
    if o.failure.None? then Outcome(o.props[ExpandProperties := "true"], None) else o
  }

  /** The position of the first rejected override among `names`, or |names|. */
  function FirstRejected(system: map<string, string>, names: seq<string>): (k: nat)
    ensures k <= |names|
    ensures forall j :: 0 <= j < k ==> !Rejected(system, names[j])
    ensures k < |names| ==> Rejected(system, names[k])
    decreases |names|
  {
    if names == [] || Rejected(system, names[0]) then 0
    else 1 + FirstRejected(system, names[1..])
  }

  // ---------------------------------------------------------------------
  // Lemmas about the loop

  /** The loop fails exactly at the first rejected override, with the message
      naming that override and its value, and by then has applied the
      overrides before it and none after it. */
  lemma {:induction false} ApplyOverridesStopsAtFirstRejected(
    system: map<string, string>, security: map<string, string>, names: seq<string>)
    ensures var k := FirstRejected(system, names);
      var o := ApplyOverrides(system, security, names);
      && (k == |names| ==> o.failure.None?)
      && (k < |names| ==>
            o.failure == Some(ParseFailure(OverrideName(names[k]), system[OverrideName(names[k])])))
      && o.props == ApplyOverrides(system, security, names[..k]).props
    decreases |names|
  {
    if names != [] {
      var overrideProperty := OverrideName(names[0]);
      if Rejected(system, names[0]) {
        assert names[..0] == [];
      } else {
        var next := if overrideProperty !in system then security
                    else security[names[0] := IntToString(ParseInt(system[overrideProperty]).value)];
        ApplyOverridesStopsAtFirstRejected(system, next, names[1..]);
        var k := FirstRejected(system, names);
        assert names[..k][1..] == names[1..][..k - 1];
      }
    }
  }

  /** A security property that is not visited, or whose override is unset,
      keeps its value (or its absence). */
  lemma {:induction false} ApplyOverridesUntouched(
    system: map<string, string>, security: map<string, string>, names: seq<string>, key: string)
    requires key !in names || OverrideName(key) !in system
    ensures Lookup(ApplyOverrides(system, security, names).props, key) == Lookup(security, key)
    decreases |names|
  {
    if names != [] {
      var overrideProperty := OverrideName(names[0]);
      if overrideProperty in system && ParseInt(system[overrideProperty]).Some? {
        var next := security[names[0] := IntToString(ParseInt(system[overrideProperty]).value)];
        assert names[0] != key;
        ApplyOverridesUntouched(system, next, names[1..], key);
      } else if overrideProperty !in system {
        ApplyOverridesUntouched(system, security, names[1..], key);
      }
    }
  }

  /** When the loop completes, every visited property with an override holds
      the normalised text of that override. */
  lemma {:induction false} ApplyOverridesCanonical(
    system: map<string, string>, security: map<string, string>, names: seq<string>, property: string)
    requires ApplyOverrides(system, security, names).failure.None?
    requires property in names && OverrideName(property) in system
    ensures Lookup(ApplyOverrides(system, security, names).props, property)
            == Canonicalize(system[OverrideName(property)])
    decreases |names|
  {
    var overrideProperty := OverrideName(names[0]);
    if overrideProperty !in system {
      ApplyOverridesCanonical(system, security, names[1..], property);
    } else {
      var next := security[names[0] := IntToString(ParseInt(system[overrideProperty]).value)];
      if property in names[1..] {
        ApplyOverridesCanonical(system, next, names[1..], property);
      } else {
        ApplyOverridesUntouched(system, next, names[1..], property);
      }
    }
  }

  // ---------------------------------------------------------------------
  // Lemmas about initSecurityProperties

  /** Every security property other than policy.expandProperties and the
      overridable ones whose override is set keeps its value (or its
      absence), whatever happens to the overrides. */
  lemma AbsentOverrideUntouched(system: map<string, string>, security: map<string, string>, key: string)
    requires key != ExpandProperties
    requires key !in OverridableProperties || OverrideName(key) !in system
    ensures Lookup(InitSecurityProperties(system, security).props, key) == Lookup(security, key)
  {
    ApplyOverridesUntouched(system, security, OverridableProperties, key);
  }

  /** On normal completion every set override is stored in canonical
      decimal form with the value it denotes, normalising that form again
      changes nothing, and property expansion is switched on. */
  lemma ValidOverridesNormalised(system: map<string, string>, security: map<string, string>, property: string)
    requires InitSecurityProperties(system, security).failure.None?
    requires property in OverridableProperties && OverrideName(property) in system
    ensures var stored := Lookup(InitSecurityProperties(system, security).props, property);
      && stored == Canonicalize(system[OverrideName(property)])
      && stored.Some? && IsCanonical(stored.value)
      && ParseInt(stored.value) == ParseInt(system[OverrideName(property)])
      && Canonicalize(stored.value) == stored
    ensures Lookup(InitSecurityProperties(system, security).props, ExpandProperties) == Some("true")
  {
    ApplyOverridesCanonical(system, security, OverridableProperties, property);
    CanonicalizeIdempotent(system[OverrideName(property)]);
  }

  /** The method throws exactly when some set override does not parse. */
  lemma FailsIffSomeOverrideRejected(system: map<string, string>, security: map<string, string>)
    ensures InitSecurityProperties(system, security).failure.Some?
            <==> exists p :: p in OverridableProperties && Rejected(system, p)
  {
    ApplyOverridesStopsAtFirstRejected(system, security, OverridableProperties);
  }

  /** A rejected override throws with the message naming it; the properties
      after it are not touched and property expansion is not switched on. */
  lemma RejectedOverrideAborts(system: map<string, string>, security: map<string, string>)
    requires FirstRejected(system, OverridableProperties) < |OverridableProperties|
    ensures var k := FirstRejected(system, OverridableProperties);
      var p := OverridableProperties[k];
      var o := InitSecurityProperties(system, security);
      && o.failure == Some(ParseFailure(OverrideName(p), system[OverrideName(p)]))
      && o.props == ApplyOverrides(system, security, OverridableProperties[..k]).props
      && (forall j :: k <= j < |OverridableProperties| ==>
            Lookup(o.props, OverridableProperties[j]) == Lookup(security, OverridableProperties[j]))
      && Lookup(o.props, ExpandProperties) == Lookup(security, ExpandProperties)
  {
    var names := OverridableProperties;
    var k := FirstRejected(system, names);
    ApplyOverridesStopsAtFirstRejected(system, security, names);
    forall j | k <= j < |names|
      ensures Lookup(ApplyOverrides(system, security, names[..k]).props, names[j]) == Lookup(security, names[j])
    {
      assert names[j] !in names[..k];
      ApplyOverridesUntouched(system, security, names[..k], names[j]);
    }
    assert ExpandProperties !in names[..k];
    ApplyOverridesUntouched(system, security, names[..k], ExpandProperties);
  }

  /** Worked case: "+05" for the positive cache TTL is stored as "5". */
  lemma PlusZeroFiveStoredAsFive(security: map<string, string>)
    ensures var system := map[OverrideName(CacheTtl) := "+05"];
      var o := InitSecurityProperties(system, security);
      o.failure.None? && Lookup(o.props, CacheTtl) == Some("5")
  {
    var system := map[OverrideName(CacheTtl) := "+05"];
    CanonicalizeSignAndZeros();
    assert OverrideName(NegativeCacheTtl) != OverrideName(CacheTtl);
    assert !Rejected(system, CacheTtl) && !Rejected(system, NegativeCacheTtl);
    ApplyOverridesStopsAtFirstRejected(system, security, OverridableProperties);
    ApplyOverridesCanonical(system, security, OverridableProperties, CacheTtl);
  }
}
