/**
 * The mutation pass of the address updater: every `vnext` server of every
 * outbound whose protocol is "vless" ends with its `address` set to the
 * given string; outbounds without `settings` or `settings.vnext` are
 * skipped and left exactly as they were.
 */
module Address {
  import opened Json

  /** `outbound.get('protocol') == 'vless'` */
  predicate Targeted(o: Members)
  {
    Get(o, "protocol") == Some(Str("vless"))
  }

  /** A list of dicts. */
  predicate ObjectList(v: Value)
  {
    v.Arr? && forall i :: 0 <= i < |v.items| ==> v.items[i].Obj?
  }

  /** An outbound the pass handles without raising: a dict, and on a vless
      one `settings` is a dict and `settings.vnext` a list of dicts where
      present. */
  predicate Processable(o: Value)
  {
    && o.Obj?
    && (Targeted(o.members) ==>
          && ObjectOrAbsent(o.members, "settings")
          && var settings := ObjectAt(o.members, "settings");
             Has(settings, "vnext") ==> ObjectList(Get(settings, "vnext").value))
  }

  /** A configuration the pass handles without raising: a dict whose
      `outbounds`, when present, is a list of processable outbounds. */
  predicate Input(config: Value)
  {
    && config.Obj?
    && (Has(config.members, "outbounds") ==>
          var v := Get(config.members, "outbounds").value;
          v.Arr? && forall i :: 0 <= i < |v.items| ==> Processable(v.items[i]))
  }

  /** `config.get('outbounds', [])`: the list under `outbounds`, or the
      empty list when the key is absent; every entry is processable. */
  function Outbounds(config: Value): (r: seq<Value>)
    requires Input(config)
    ensures Get(config.members, "outbounds") == None ==> r == []
    ensures Get(config.members, "outbounds").Some? ==> Get(config.members, "outbounds") == Some(Arr(r))
    ensures forall i :: 0 <= i < |r| ==> Processable(r[i])
  {
    if Has(config.members, "outbounds") then Get(config.members, "outbounds").value.items else []
  }

  /** The `settings` object of a vless outbound, empty when absent. */
  function SettingsOf(o: Value): Members
    requires Processable(o) && Targeted(o.members)
  {
    ObjectAt(o.members, "settings")
  }

  /** A vless outbound that gets past both `continue` guards. */
  predicate Reached(o: Value)
    requires Processable(o)
  {
    Targeted(o.members) && Has(o.members, "settings") && Has(SettingsOf(o), "vnext")
  }

  /** The `settings.vnext` list of a reached outbound. */
  function Servers(o: Value): seq<Value>
    requires Processable(o) && Reached(o)
  {
    Get(SettingsOf(o), "vnext").value.items
  }

  /** `vnext[i]['address'] = address` on one server dict. */
  function SetAddress(server: Value, address: string): (r: Value)
    requires server.Obj?
    ensures r.Obj?
    ensures Keys(r.members) == if Has(server.members, "address") then Keys(server.members) else Keys(server.members) + ["address"]
    ensures Get(r.members, "address") == Some(Str(address))
    ensures forall k :: k != "address" ==> Get(r.members, k) == Get(server.members, k)
  {
    Obj(Put(server.members, "address", Str(address)))
  }

  /** The inner loop over a `vnext` list: same length and order, every
      server carries the new address and keeps its other members. */
  function PatchServers(servers: seq<Value>, address: string): (r: seq<Value>)
    requires ObjectList(Arr(servers))
    ensures ObjectList(Arr(r)) && |r| == |servers|
    ensures forall i :: 0 <= i < |r| ==> Get(r[i].members, "address") == Some(Str(address))
    ensures forall i, k :: 0 <= i < |r| && k != "address" ==>
      Get(r[i].members, k) == Get(servers[i].members, k)
  {
    seq(|servers|, i requires 0 <= i < |servers| => SetAddress(servers[i], address))
  }

  /** What the loop body leaves in one outbound: only a reached outbound
      changes, and in it only `settings.vnext`; no `settings` or `vnext` key
      is created, and the key lists of the outbound and of its `settings` stay
      as they were (`address` may still be added to a server, by
      `SetAddress`). */
  function PatchOutbound(o: Value, address: string): (r: Value)
    requires Processable(o)
    ensures Processable(r)
    ensures Targeted(r.members) == Targeted(o.members) && Reached(r) == Reached(o)
    ensures !Reached(o) ==> r == o
    ensures Keys(r.members) == Keys(o.members)
    ensures forall k :: k != "settings" ==> Get(r.members, k) == Get(o.members, k)
    ensures Reached(o) ==>
      Lookup(r, ["settings", "vnext"]) == Some(Arr(PatchServers(Servers(o), address)))
  {
    if Reached(o) then
      var settings' := Put(SettingsOf(o), "vnext", Arr(PatchServers(Servers(o), address)));
      var m := Put(o.members, "settings", Obj(settings'));
      LookupTwo(m, "settings", settings', "vnext", Arr(PatchServers(Servers(o), address)));
      Obj(m)
    else
      o
  }

  /** The pass over the whole configuration. */
  function PatchConfig(config: Value, address: string): (r: Value)
    requires Input(config)
    ensures Input(r)
    ensures !Has(config.members, "outbounds") ==> r == config
    ensures Keys(r.members) == Keys(config.members)
    ensures forall k :: k != "outbounds" ==> Get(r.members, k) == Get(config.members, k)
    ensures |Outbounds(r)| == |Outbounds(config)|
    ensures forall i :: 0 <= i < |Outbounds(r)| ==> Outbounds(r)[i] == PatchOutbound(Outbounds(config)[i], address)
  {
    if Has(config.members, "outbounds") then
      var outs := Outbounds(config);
      Obj(Put(config.members, "outbounds", Arr(seq(|outs|, i requires 0 <= i < |outs| => PatchOutbound(outs[i], address)))))
    else
      config
  }

  /** The inner loop `for i in range(len(vnext))`, assigning `address` in
      every server dict of the list. */
  method UpdateServers(servers: seq<Value>, address: string) returns (vnext: seq<Value>)
    requires ObjectList(Arr(servers))
    ensures vnext == PatchServers(servers, address)
  {
    vnext := servers;
    for i := 0 to |vnext|
      invariant |vnext| == |servers|
      invariant forall j :: 0 <= j < i ==> vnext[j] == SetAddress(servers[j], address)
      invariant forall j :: i <= j < |vnext| ==> vnext[j] == servers[j]
    {
      vnext := vnext[i := Obj(Put(vnext[i].members, "address", Str(address)))];
    }
  }

  /** The loop body of the updater for one outbound: the protocol test, the
      two `continue` guards (here an early return that leaves the outbound as
      it was), and the inner loop over `vnext`; the dicts changed in place
      are stored back. */
  method UpdateOutbound(o: Value, address: string) returns (outbound: Value)
    requires Processable(o)
    ensures outbound == PatchOutbound(o, address)
  {
    outbound := o;
    if Get(o.members, "protocol") == Some(Str("vless")) {
      if !Has(o.members, "settings") {
        return;
      }
      var settings := Get(o.members, "settings").value.members;
      assert settings == SettingsOf(o);
      if !Has(settings, "vnext") {
        return;
      }
      assert Reached(o);
      var vnext := UpdateServers(Get(settings, "vnext").value.items, address);
      settings := Put(settings, "vnext", Arr(vnext));
      outbound := Obj(Put(o.members, "settings", Obj(settings)));
    }
  }

  /** The loop of the updater over `config.get('outbounds', [])`: each
      outbound is updated where it stands in the list. */
  method UpdateAddress(config: Value, address: string) returns (result: Value)
    requires Input(config)
    ensures result == PatchConfig(config, address)
  {
    if !Has(config.members, "outbounds") {
      return config;
    }
    var original := Outbounds(config);
    var outbounds := original;
    for i := 0 to |outbounds|
      invariant |outbounds| == |original|
      invariant forall j :: 0 <= j < |original| ==> Processable(original[j])
      invariant forall j :: 0 <= j < i ==> outbounds[j] == PatchOutbound(original[j], address)
      invariant forall j :: i <= j < |outbounds| ==> outbounds[j] == original[j]
    {
      var outbound := UpdateOutbound(outbounds[i], address);
      outbounds := outbounds[i := outbound];
    }
    assert outbounds == seq(|original|, j requires 0 <= j < |original| => PatchOutbound(original[j], address));
    result := Obj(Put(config.members, "outbounds", Arr(outbounds)));
  }

  /** The `settings` object and the server list a reached outbound ends with. */
  lemma PatchedParts(o: Value, address: string)
    requires Processable(o) && Reached(o)
    ensures SettingsOf(PatchOutbound(o, address)) ==
      Put(SettingsOf(o), "vnext", Arr(PatchServers(Servers(o), address)))
    ensures Servers(PatchOutbound(o, address)) == PatchServers(Servers(o), address)
  {
    var settings' := Put(SettingsOf(o), "vnext", Arr(PatchServers(Servers(o), address)));
    assert Get(PatchOutbound(o, address).members, "settings") == Some(Obj(settings'));
  }

  /** The two `continue` guards: an outbound gets past them exactly when it
      is vless and `outbound['settings']['vnext']` exists. */
  lemma ReachedByLookup(o: Value)
    requires Processable(o)
    ensures Reached(o) <==> Targeted(o.members) && Lookup(o, ["settings", "vnext"]).Some?
  {
    var path := ["settings", "vnext"];
    assert path[1..] == ["vnext"] && path[1..][1..] == [];
    if Targeted(o.members) && Has(o.members, "settings") {
      var settings := SettingsOf(o);
      assert Lookup(o, path) == Lookup(Obj(settings), ["vnext"]);
      if Has(settings, "vnext") {
        assert Lookup(Obj(settings), ["vnext"]) == Some(Get(settings, "vnext").value);
      }
    }
  }

  /** In a reached outbound, `settings` keeps its keys, their order and
      every member other than `vnext`. */
  lemma PatchKeepsSettings(o: Value, address: string)
    requires Processable(o) && Reached(o)
    ensures Keys(SettingsOf(PatchOutbound(o, address))) == Keys(SettingsOf(o))
    ensures forall k :: k != "vnext" ==>
      Get(SettingsOf(PatchOutbound(o, address)), k) == Get(SettingsOf(o), k)
  {
    PatchedParts(o, address);
  }

  /** Setting the same address on a server list again changes nothing. */
  lemma PatchServersIdempotent(servers: seq<Value>, address: string)
    requires ObjectList(Arr(servers))
    ensures PatchServers(PatchServers(servers, address), address) == PatchServers(servers, address)
  {
    var once := PatchServers(servers, address);
    forall i | 0 <= i < |once| ensures SetAddress(once[i], address) == once[i] {
      PutUnchanged(once[i].members, "address", Str(address));
    }
  }

  /** Patching an outbound a second time with the same address changes nothing. */
  lemma PatchOutboundIdempotent(o: Value, address: string)
    requires Processable(o)
    ensures PatchOutbound(PatchOutbound(o, address), address) == PatchOutbound(o, address)
  {
    if Reached(o) {
      var r := PatchOutbound(o, address);
      PatchedParts(o, address);
      var servers' := PatchServers(Servers(o), address);
      PatchServersIdempotent(Servers(o), address);
      var settings' := Put(SettingsOf(o), "vnext", Arr(servers'));
      PutUnchanged(settings', "vnext", Arr(servers'));
      PutUnchanged(r.members, "settings", Obj(settings'));
    }
  }

  /** Running the whole pass twice with the same address gives the same tree
      as running it once. */
  lemma PatchConfigIdempotent(config: Value, address: string)
    requires Input(config)
    ensures PatchConfig(PatchConfig(config, address), address) == PatchConfig(config, address)
  {
    var once := PatchConfig(config, address);
    if Has(config.members, "outbounds") {
      var outs := Outbounds(once);
      forall i | 0 <= i < |outs| ensures PatchOutbound(outs[i], address) == outs[i] {
        PatchOutboundIdempotent(Outbounds(config)[i], address);
      }
      var twice := seq(|outs|, i requires 0 <= i < |outs| => PatchOutbound(outs[i], address));
      assert twice == outs;
      assert Has(once.members, "outbounds") by {
        assert Get(once.members, "outbounds").Some?;
      }
      PutUnchanged(once.members, "outbounds", Arr(outs));
    }
  }

  /** A document in which no outbound gets past the guards comes back
      unchanged. */
  lemma PatchConfigNoMatch(config: Value, address: string)
    requires Input(config)
    requires forall i :: 0 <= i < |Outbounds(config)| ==> !Reached(Outbounds(config)[i])
    ensures PatchConfig(config, address) == config
  {
    if Has(config.members, "outbounds") {
      var outs := Outbounds(config);
      assert seq(|outs|, i requires 0 <= i < |outs| => PatchOutbound(outs[i], address)) == outs;
      PutUnchanged(config.members, "outbounds", Arr(outs));
    }
  }

  /** Over the whole configuration: an outbound whose protocol is not vless
      is untouched, and every server of every reached outbound carries the
      new address, whatever the number of outbounds and servers. */
  lemma PatchConfigSelective(config: Value, address: string, i: nat, j: nat)
    requires Input(config) && i < |Outbounds(config)|
    ensures i < |Outbounds(PatchConfig(config, address))|
    ensures var before, after := Outbounds(config)[i], Outbounds(PatchConfig(config, address))[i];
      && (!Targeted(before.members) ==> after == before)
      && (Reached(before) && j < |Servers(before)| ==>
            Processable(after) && Reached(after) && j < |Servers(after)| &&
            Get(Servers(after)[j].members, "address") == Some(Str(address)))
  {
    var before := Outbounds(config)[i];
    if Reached(before) {
      PatchedParts(before, address);
    }
  }
}
