/**
 * The mutation pass of the fragment updater: every outbound tagged
 * "fragment" ends with `settings.fragment.interval`, `.length` and `.packets`
 * set to the three argument strings, `settings` and `settings.fragment`
 * being created as empty objects where missing.
 */
module Fragment {
  import opened Json

  /** The three command-line strings, stored verbatim. */
  datatype Params = Params(interval: string, length: string, packets: string)

  /** `outbound.get('tag') == 'fragment'` */
  predicate Tagged(o: Members)
  {
    Get(o, "tag") == Some(Str("fragment"))
  }

  /** An outbound the pass handles without raising: a dict, and on a tagged
      one `settings` and `settings.fragment` are dicts where present. */
  predicate Processable(o: Value)
  {
    && o.Obj?
    && (Tagged(o.members) ==>
          && ObjectOrAbsent(o.members, "settings")
          && ObjectOrAbsent(ObjectAt(o.members, "settings"), "fragment"))
  }

  /** A configuration the pass handles without raising: a dict whose
      `outbounds`, when present, is a list of processable outbounds. */
  predicate Input(config: Value)
  {
    && config.Obj?
    && (Has(config.members, "outbounds") ==>
          var v := Get(config.members, "outbounds").value;
          v.Arr? && forall i :: 0 <= i < |v.items| ==> Processable(v.items[i]))
  }

  /** `config.get('outbounds', [])`: the list under `outbounds`, or the
      empty list when the key is absent; every entry is processable. */
  function Outbounds(config: Value): (r: seq<Value>)
    requires Input(config)
    ensures Get(config.members, "outbounds") == None ==> r == []
    ensures Get(config.members, "outbounds").Some? ==> Get(config.members, "outbounds") == Some(Arr(r))
    ensures forall i :: 0 <= i < |r| ==> Processable(r[i])
  {
    if Has(config.members, "outbounds") then Get(config.members, "outbounds").value.items else []
  }

  /** The `settings` object of a tagged outbound, empty when absent. */
  function SettingsOf(o: Value): Members
    requires Processable(o) && Tagged(o.members)
  {
    ObjectAt(o.members, "settings")
  }

  /** The `settings.fragment` object of a tagged outbound, empty when absent. */
  function FragmentOf(o: Value): Members
    requires Processable(o) && Tagged(o.members)
  {
    ObjectAt(SettingsOf(o), "fragment")
  }

  /** The three assignments into the fragment object. */
  function WithParams(f: Members, p: Params): (r: Members)
    ensures Get(r, "interval") == Some(Str(p.interval))
    ensures Get(r, "length") == Some(Str(p.length))
    ensures Get(r, "packets") == Some(Str(p.packets))
    ensures forall k :: k != "interval" && k != "length" && k != "packets" ==> Get(r, k) == Get(f, k)
  {
    Put(Put(Put(f, "interval", Str(p.interval)), "length", Str(p.length)), "packets", Str(p.packets))
  }

  /** The three assignments keep the fragment object's keys in order and
      append only those of `interval`, `length`, `packets` that were missing. */
  lemma WithParamsKeys(f: Members, p: Params)
    ensures Keys(f) <= Keys(WithParams(f, p))
    ensures forall k :: k in Keys(WithParams(f, p)) ==> k in Keys(f) || k in ["interval", "length", "packets"]
  {
    var f1 := Put(f, "interval", Str(p.interval));
    var f2 := Put(f1, "length", Str(p.length));
    var f3 := Put(f2, "packets", Str(p.packets));
    assert WithParams(f, p) == f3;
    PutKeys(f, "interval", Str(p.interval));
    PutKeys(f1, "length", Str(p.length));
    PutKeys(f2, "packets", Str(p.packets));
    PrefixTrans(Keys(f), Keys(f1), Keys(f2));
    PrefixTrans(Keys(f), Keys(f2), Keys(f3));
  }

  /** What the loop body leaves in one outbound: an untagged outbound is
      untouched; a tagged one ends with the three strings under
      `settings.fragment`, and its other members are kept. */
  function PatchOutbound(o: Value, p: Params): (r: Value)
    requires Processable(o)
    ensures Processable(r) && Tagged(r.members) == Tagged(o.members)
    ensures !Tagged(o.members) ==> r == o
    ensures forall k :: k != "settings" ==> Get(r.members, k) == Get(o.members, k)
    ensures Tagged(o.members) ==>
      && Lookup(r, ["settings", "fragment", "interval"]) == Some(Str(p.interval))
      && Lookup(r, ["settings", "fragment", "length"]) == Some(Str(p.length))
      && Lookup(r, ["settings", "fragment", "packets"]) == Some(Str(p.packets))
  {
    if Tagged(o.members) then
      var settings := ObjectAt(o.members, "settings");
      var fragment' := WithParams(ObjectAt(settings, "fragment"), p);
      var settings' := Put(settings, "fragment", Obj(fragment'));
      var m := Put(o.members, "settings", Obj(settings'));
      LookupThree(m, "settings", settings', "fragment", fragment', "interval", Str(p.interval));
      LookupThree(m, "settings", settings', "fragment", fragment', "length", Str(p.length));
      LookupThree(m, "settings", settings', "fragment", fragment', "packets", Str(p.packets));
      Obj(m)
    else
      o
  }

  /** The `settings` object a tagged outbound ends with, and its fragment. */
  lemma PatchedParts(o: Value, p: Params)
    requires Processable(o) && Tagged(o.members)
    ensures Processable(PatchOutbound(o, p)) && Tagged(PatchOutbound(o, p).members)
    ensures SettingsOf(PatchOutbound(o, p)) == Put(SettingsOf(o), "fragment", Obj(WithParams(FragmentOf(o), p)))
    ensures FragmentOf(PatchOutbound(o, p)) == WithParams(FragmentOf(o), p)
  {
    var r := PatchOutbound(o, p);
    var settings' := Put(SettingsOf(o), "fragment", Obj(WithParams(FragmentOf(o), p)));
    assert Get(r.members, "settings") == Some(Obj(settings'));
    assert Get(settings', "fragment") == Some(Obj(WithParams(FragmentOf(o), p)));
  }

  /** The pass over the whole configuration. */
  function PatchConfig(config: Value, p: Params): (r: Value)
    requires Input(config)
    ensures Input(r)
    ensures !Has(config.members, "outbounds") ==> r == config
    ensures Keys(r.members) == Keys(config.members)
    ensures forall k :: k != "outbounds" ==> Get(r.members, k) == Get(config.members, k)
    ensures |Outbounds(r)| == |Outbounds(config)|
    ensures forall i :: 0 <= i < |Outbounds(r)| ==> Outbounds(r)[i] == PatchOutbound(Outbounds(config)[i], p)
  {
    if Has(config.members, "outbounds") then
      var outs := Outbounds(config);
      Obj(Put(config.members, "outbounds", Arr(seq(|outs|, i requires 0 <= i < |outs| => PatchOutbound(outs[i], p)))))
    else
      config
  }

  /** The loop body of the updater, statement by statement: `settings` and
      `settings.fragment` are created as `{}` where missing, the three keys
      are assigned, and the dicts changed in place are stored back. */
  method UpdateOutbound(o: Value, p: Params) returns (outbound: Value)
    requires Processable(o)
    ensures outbound == PatchOutbound(o, p)
  {
    outbound := o;
    if Get(o.members, "tag") == Some(Str("fragment")) {
      var members := o.members;
      if !Has(members, "settings") {
        members := Put(members, "settings", Obj([]));
      }
      var settings := Get(members, "settings").value.members;
      assert settings == SettingsOf(o);
      if !Has(settings, "fragment") {
        settings := Put(settings, "fragment", Obj([]));
      }
      var fragment := Get(settings, "fragment").value.members;
      assert fragment == FragmentOf(o);
      fragment := Put(fragment, "interval", Str(p.interval));
      fragment := Put(fragment, "length", Str(p.length));
      fragment := Put(fragment, "packets", Str(p.packets));
      PutTwice(SettingsOf(o), "fragment", Obj([]), Obj(fragment));
      settings := Put(settings, "fragment", Obj(fragment));
      PutTwice(o.members, "settings", Obj([]), Obj(settings));
      members := Put(members, "settings", Obj(settings));
      outbound := Obj(members);
    }
  }

  /** The loop of the updater over `config.get('outbounds', [])`: each
      outbound is updated where it stands in the list. */
  method UpdateFragment(config: Value, p: Params) returns (result: Value)
    requires Input(config)
    ensures result == PatchConfig(config, p)
  {
    if !Has(config.members, "outbounds") {
      return config;
    }
    var original := Outbounds(config);
    var outbounds := original;
    for i := 0 to |outbounds|
      invariant |outbounds| == |original|
      invariant forall j :: 0 <= j < |original| ==> Processable(original[j])
      invariant forall j :: 0 <= j < i ==> outbounds[j] == PatchOutbound(original[j], p)
      invariant forall j :: i <= j < |outbounds| ==> outbounds[j] == original[j]
    {
      var outbound := UpdateOutbound(outbounds[i], p);
      outbounds := outbounds[i := outbound];
    }
    assert outbounds == seq(|original|, j requires 0 <= j < |original| => PatchOutbound(original[j], p));
    result := Obj(Put(config.members, "outbounds", Arr(outbounds)));
  }

  /** Members of `settings` other than `fragment`, and members of the
      fragment object other than the three parameters, are kept; a key is
      created only where it was missing, and is appended. */
  lemma PatchKeepsOtherMembers(o: Value, p: Params)
    requires Processable(o) && Tagged(o.members)
    ensures Processable(PatchOutbound(o, p)) && Tagged(PatchOutbound(o, p).members)
    ensures forall k :: k != "fragment" ==>
      Get(SettingsOf(PatchOutbound(o, p)), k) == Get(SettingsOf(o), k)
    ensures forall k :: k != "interval" && k != "length" && k != "packets" ==>
      Get(FragmentOf(PatchOutbound(o, p)), k) == Get(FragmentOf(o), k)
    ensures Keys(PatchOutbound(o, p).members) ==
      if Has(o.members, "settings") then Keys(o.members) else Keys(o.members) + ["settings"]
    ensures Keys(SettingsOf(PatchOutbound(o, p))) ==
      if Has(SettingsOf(o), "fragment") then Keys(SettingsOf(o)) else Keys(SettingsOf(o)) + ["fragment"]
  {
    PatchedParts(o, p);
  }

  /** Filling in an empty fragment object gives exactly the three members, in
      assignment order. */
  lemma WithParamsOnEmpty(p: Params)
    ensures WithParams([], p) ==
      [("interval", Str(p.interval)), ("length", Str(p.length)), ("packets", Str(p.packets))]
  {
    var interval, length, packets := Str(p.interval), Str(p.length), Str(p.packets);
    var f1 := [("interval", interval)];
    var f2 := f1 + [("length", length)];
    assert Keys(f1) == ["interval"] && Keys(f2) == ["interval", "length"];
    PutAbsent([], "interval", interval);
    PutAbsent(f1, "length", length);
    PutAbsent(f2, "packets", packets);
  }

  /** A tagged outbound without `settings` gains it as its last member,
      holding only the new fragment object. */
  lemma CreatesSettings(o: Value, p: Params)
    requires Processable(o) && Tagged(o.members) && !Has(o.members, "settings")
    ensures PatchOutbound(o, p).members == o.members +
      [("settings", Obj([("fragment", Obj([("interval", Str(p.interval)),
                                          ("length", Str(p.length)),
                                          ("packets", Str(p.packets))]))]))]
  {
    assert SettingsOf(o) == [] && FragmentOf(o) == [];
    WithParamsOnEmpty(p);
    var fragment := Obj(WithParams([], p));
    assert Put([], "fragment", fragment) == [("fragment", fragment)];
  }

  /** A `settings` without `fragment` gains it as its last member, holding
      only the three parameters. */
  lemma CreatesFragment(o: Value, p: Params)
    requires Processable(o) && Tagged(o.members) && !Has(SettingsOf(o), "fragment")
    ensures SettingsOf(PatchOutbound(o, p)) == SettingsOf(o) +
      [("fragment", Obj([("interval", Str(p.interval)),
                         ("length", Str(p.length)),
                         ("packets", Str(p.packets))]))]
  {
    PatchedParts(o, p);
    WithParamsOnEmpty(p);
  }

  /** Storing the same three strings again changes nothing. */
  lemma WithParamsIdempotent(f: Members, p: Params)
    ensures WithParams(WithParams(f, p), p) == WithParams(f, p)
  {
    var g := WithParams(f, p);
    PutUnchanged(g, "interval", Str(p.interval));
    PutUnchanged(g, "length", Str(p.length));
    PutUnchanged(g, "packets", Str(p.packets));
  }

  /** Patching an outbound a second time with the same strings changes nothing. */
  lemma PatchOutboundIdempotent(o: Value, p: Params)
    requires Processable(o)
    ensures Processable(PatchOutbound(o, p))
    ensures PatchOutbound(PatchOutbound(o, p), p) == PatchOutbound(o, p)
  {
    if Tagged(o.members) {
      var r := PatchOutbound(o, p);
      PatchedParts(o, p);
      var fragment' := WithParams(FragmentOf(o), p);
      var settings' := Put(SettingsOf(o), "fragment", Obj(fragment'));
      WithParamsIdempotent(FragmentOf(o), p);
      PutUnchanged(settings', "fragment", Obj(fragment'));
      PutUnchanged(r.members, "settings", Obj(settings'));
    }
  }

  /** Running the whole pass twice with the same strings gives the same tree
      as running it once. */
  lemma PatchConfigIdempotent(config: Value, p: Params)
    requires Input(config)
    ensures Input(PatchConfig(config, p))
    ensures PatchConfig(PatchConfig(config, p), p) == PatchConfig(config, p)
  {
    var once := PatchConfig(config, p);
    if Has(config.members, "outbounds") {
      var outs := Outbounds(once);
      forall i | 0 <= i < |outs| ensures PatchOutbound(outs[i], p) == outs[i] {
        PatchOutboundIdempotent(Outbounds(config)[i], p);
      }
      var twice := seq(|outs|, i requires 0 <= i < |outs| => PatchOutbound(outs[i], p));
      assert twice == outs;
      assert Has(once.members, "outbounds") by {
        assert Get(once.members, "outbounds").Some?;
      }
      PutUnchanged(once.members, "outbounds", Arr(outs));
    }
  }

  /** A document whose outbounds are all untagged comes back unchanged. */
  lemma PatchConfigNoMatch(config: Value, p: Params)
    requires Input(config)
    requires forall i :: 0 <= i < |Outbounds(config)| ==> !Tagged(Outbounds(config)[i].members)
    ensures PatchConfig(config, p) == config
  {
    if Has(config.members, "outbounds") {
      var outs := Outbounds(config);
      assert seq(|outs|, i requires 0 <= i < |outs| => PatchOutbound(outs[i], p)) == outs;
      PutUnchanged(config.members, "outbounds", Arr(outs));
    }
  }

  /** Over the whole configuration: every tagged outbound carries the three
      strings, every other outbound is untouched, whatever their number. */
  lemma PatchConfigSelective(config: Value, p: Params, i: nat)
    requires Input(config) && i < |Outbounds(config)|
    ensures i < |Outbounds(PatchConfig(config, p))|
    ensures var before, after := Outbounds(config)[i], Outbounds(PatchConfig(config, p))[i];
      && (!Tagged(before.members) ==> after == before)
      && (Tagged(before.members) ==>
            && Lookup(after, ["settings", "fragment", "interval"]) == Some(Str(p.interval))
            && Lookup(after, ["settings", "fragment", "length"]) == Some(Str(p.length))
            && Lookup(after, ["settings", "fragment", "packets"]) == Some(Str(p.packets)))
  {
  }
}
