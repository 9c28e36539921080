# Proxy configuration patchers — a Dafny model

This project models the two one-shot scripts that patch a proxy configuration
(a JSON document with an `outbounds` list) in place:

- the **fragment updater** (`py/fragment.py`) visits every outbound whose `tag`
  is `"fragment"`. It creates `settings` and `settings.fragment` as empty
  objects where they are missing. Then it sets `interval`, `length` and
  `packets` in that fragment object to its three argument strings;
- the **address updater** (`py/address.py`) visits every outbound whose
  `protocol` is `"vless"`. It skips an outbound without `settings` or without
  `settings.vnext`. Otherwise it sets `address` in every server object of the
  `vnext` list to its argument string.

The model starts from the parsed document and ends at the mutated one.

- `json.dfy` (module `Json`): the JSON value (RFC 8259, section 3). Numbers are
  kept as opaque literal text. An object is its list of members in insertion
  order, as a Python dict keeps them. `Get`, `Has` and `Put` are the dict
  operations the scripts use (`d.get(k)`, `k in d`, `d[k] = v`): an assignment
  overwrites an existing member where it stands and appends a new one.
- `fragment.dfy` (module `Fragment`) and `address.dfy` (module `Address`): one
  module per script. Each has a pure specification of the pass
  (`PatchOutbound`, `PatchConfig`) that carries the properties, and the
  imperative pass as methods proved equal to it. `UpdateFragment` and
  `UpdateAddress` walk `outbounds` in order with an index loop, where the
  scripts use `for outbound in ...`; `UpdateOutbound` is the body of that
  loop. `UpdateServers` is the index loop over `vnext` (`py/address.py:17`).
- Both scripts crash on some ill-shaped documents (see "Left out"). The
  predicates `Input` and `Processable` give the shapes the model admits, a
  subset of what the scripts run on without raising. They are the
  preconditions of the members that take a whole document or a whole
  outbound; the `Json` members and the members on a single dict or server
  list have their own, smaller preconditions or none.

## Model

| member | source | states |
|---|---|---|
| `Json.Get` | py/fragment.py:14 | `d.get(k)` yields a value exactly when some member is named `k`, and that value is the value of a member named `k` |
| `Json.Find` | py/fragment.py:15 | `k in d` finds the first member named `k`, or reports that no member has that name |
| `Json.Put` | py/fragment.py:20-22 | after `d[k] = v`, `k` reads back `v` and every other key reads as before; an existing key keeps its position and a new key is appended last |
| `Json.Has` | py/fragment.py:15 | `k in d` holds exactly when `k` is one of the dict's member names |
| `Json.Lookup` | py/fragment.py:20-22 | the chained subscript `v[p0][p1]...` follows the path through objects, yielding nothing at a missing key or a non-object |
| `Json.ObjectAt` | py/fragment.py:15-18 | the members of the object `d[k]` holds after `if k not in d: d[k] = {}`: the existing object, or the new empty one |
| `Json.PutAbsent` | py/fragment.py:16 | assigning a key the dict lacks appends it as the last member |
| `Json.PutKeys` | py/fragment.py:16-22 | an assignment keeps the existing keys in order and adds no key but its own |
| `Json.PutUnchanged` | py/fragment.py:20-22 | assigning the value a key already holds leaves the dict as it was |
| `Json.PutTwice` | py/fragment.py:16-22 | creating a member as `{}` and then overwriting it gives the same dict as storing the final value once |
| `Json.PutKeepsUnique` | py/fragment.py:16-22 | an assignment never makes a dict hold one key twice |
| `Fragment.Tagged` | py/fragment.py:14 | the test `outbound.get('tag') == 'fragment'` |
| `Fragment.Processable` | py/fragment.py:14-22 | an outbound the loop body handles without raising: a dict, and when tagged, `settings` and `settings.fragment` are dicts where present |
| `Fragment.Input` | py/fragment.py:10-13 | a parsed document the loop handles without raising: a dict whose `outbounds`, when present, is a list of processable outbounds |
| `Fragment.Outbounds` | py/fragment.py:13 | `config.get('outbounds', [])` is the list under `outbounds`, or the empty list when the key is absent, and every entry is processable |
| `Fragment.SettingsOf` | py/fragment.py:15-17 | `outbound['settings']` once created where missing |
| `Fragment.FragmentOf` | py/fragment.py:17-18 | `outbound['settings']['fragment']` once created where missing |
| `Fragment.WithParams` | py/fragment.py:20-22 | after the three assignments, `interval`, `length` and `packets` hold the argument strings verbatim, as strings, and every other key of the fragment object is unchanged |
| `Fragment.WithParamsKeys` | py/fragment.py:20-22 | the fragment object's existing keys keep their order as a prefix, and the only keys added are `interval`, `length` and `packets` |
| `Fragment.PatchOutbound` | py/fragment.py:14-22 | an outbound whose `tag` is not `"fragment"` is unchanged; a tagged one ends with `settings.fragment.interval`, `.length` and `.packets` equal to the three strings; members other than `settings` are unchanged and the outbound stays well-shaped |
| `Fragment.PatchKeepsOtherMembers` | py/fragment.py:15-22 | members of `settings` other than `fragment` and members of `fragment` other than the three keys are preserved; `settings` and `fragment` are appended only when missing, and the existing keys of the outbound and of `settings` keep their order |
| `Fragment.CreatesSettings` | py/fragment.py:15-22 | a tagged outbound without `settings` ends with exactly one new last member, `settings`, holding only `fragment`, which holds only the three keys in assignment order |
| `Fragment.CreatesFragment` | py/fragment.py:17-22 | a tagged outbound whose `settings` lacks `fragment` gains it as the last member of `settings`, holding only the three keys |
| `Fragment.WithParamsOnEmpty` | py/fragment.py:18-22 | filling a freshly created `{}` gives exactly `interval`, `length`, `packets` in that order |
| `Fragment.PatchConfig` | py/fragment.py:13-22 | a document without `outbounds` is unchanged; top-level keys keep their order and every key but `outbounds` its value; `outbounds` keeps its length and each entry is the patched original entry at the same index |
| `Fragment.PatchConfigSelective` | py/fragment.py:13-22 | in the whole document, every outbound tagged `"fragment"` carries the three strings and every other outbound is unchanged |
| `Fragment.PatchConfigNoMatch` | py/fragment.py:13-14 | a document none of whose outbounds is tagged `"fragment"` comes back unchanged |
| `Fragment.WithParamsIdempotent` | py/fragment.py:20-22 | assigning the same three strings twice equals assigning them once |
| `Fragment.PatchOutboundIdempotent` | py/fragment.py:14-22 | patching an outbound twice with the same strings equals patching it once |
| `Fragment.PatchConfigIdempotent` | py/fragment.py:13-22 | running the fragment pass twice with the same strings gives the same tree as running it once |
| `Fragment.UpdateOutbound` | py/fragment.py:14-22 | the loop body (tag test, create-if-absent of `settings` and `fragment`, three assignments) produces exactly `PatchOutbound` |
| `Fragment.UpdateFragment` | py/fragment.py:13-22 | the loop over `config.get('outbounds', [])` produces exactly `PatchConfig` |
| `Address.Targeted` | py/address.py:12 | the test `outbound.get('protocol') == 'vless'` |
| `Address.Processable` | py/address.py:12-18 | an outbound the loop body handles without raising: a dict, and when vless, `settings` is a dict where present and `settings.vnext` a list of dicts where present |
| `Address.Input` | py/address.py:8-11 | a parsed document the loop handles without raising: a dict whose `outbounds`, when present, is a list of processable outbounds |
| `Address.Outbounds` | py/address.py:11 | `config.get('outbounds', [])` is the list under `outbounds`, or the empty list when the key is absent, and every entry is processable |
| `Address.SettingsOf` | py/address.py:15 | `outbound['settings']` of a vless outbound |
| `Address.Reached` | py/address.py:12-16 | a vless outbound that gets past both `continue` guards |
| `Address.ReachedByLookup` | py/address.py:12-16 | an outbound gets past the guards exactly when it is vless and `outbound['settings']['vnext']` exists |
| `Address.Servers` | py/address.py:17-18 | the `settings.vnext` list the inner loop walks |
| `Address.SetAddress` | py/address.py:18 | after `server['address'] = address`, `address` holds the string verbatim and every other key of the server, e.g. `port`, reads as before; the server's keys keep their order, and `address` is appended last when it was missing |
| `Address.PatchServers` | py/address.py:17-18 | the `vnext` list keeps its length and order; every server ends with the new address and keeps its other members |
| `Address.PatchOutbound` | py/address.py:12-18 | only a `"vless"` outbound that has `settings` and `settings.vnext` changes, and a skipped one is left exactly as it was; no `settings` or `vnext` key is created and the outbound's key list is unchanged; in a changed one, `settings.vnext` is the patched server list and members other than `settings` are unchanged |
| `Address.PatchKeepsSettings` | py/address.py:15-18 | in a changed outbound, `settings` keeps its keys, their order and every member other than `vnext` |
| `Address.PatchConfig` | py/address.py:11-18 | a document without `outbounds` is unchanged; top-level keys keep their order and every key but `outbounds` its value; `outbounds` keeps its length and each entry is the patched original entry at the same index |
| `Address.PatchConfigSelective` | py/address.py:11-18 | in the whole document, an outbound whose protocol is not `"vless"` is unchanged, and every server of every updated outbound holds the new address |
| `Address.PatchConfigNoMatch` | py/address.py:11-16 | a document none of whose outbounds gets past the protocol test and both guards comes back unchanged |
| `Address.PatchServersIdempotent` | py/address.py:17-18 | setting the same address on a server list twice equals setting it once |
| `Address.PatchOutboundIdempotent` | py/address.py:12-18 | patching an outbound twice with the same address equals patching it once |
| `Address.PatchConfigIdempotent` | py/address.py:11-18 | running the address pass twice with the same address gives the same tree as running it once |
| `Address.UpdateServers` | py/address.py:17-18 | the index loop over `vnext` produces exactly `PatchServers` |
| `Address.UpdateOutbound` | py/address.py:12-18 | the loop body (protocol test, the two `continue` guards, the inner loop) produces exactly `PatchOutbound` |
| `Address.UpdateAddress` | py/address.py:11-18 | the loop over `config.get('outbounds', [])` produces exactly `PatchConfig` |

## Left out

- Command-line arguments (`sys.argv`, which raises IndexError when an argument is missing) are not modelled. The strings arrive as parameters: `Params` for the fragment updater and `address` for the address updater.
- Reading and writing the file, `json.load` and `json.dump` are not modelled. Neither is the `indent=2` formatting, partial writes, or two processes racing on the file. The model begins with the parsed tree and ends with the mutated tree. The member order it keeps is the order `json.dump` writes.
- Ill-shaped documents are excluded by the preconditions `Input` and `Processable`, because the scripts crash on most of them. This covers a top-level value that is not an object, an `outbounds` that is not a list, an outbound that is not an object, and a `settings` or `settings.fragment` of a fragment-tagged outbound that is not an object. It also covers a `settings` of a vless outbound that is not an object, and a `vnext` that is not a list of objects. A few of these inputs do not crash: an empty string or empty object as `outbounds` or `vnext` is iterated as nothing, and a vless `settings` that is a string or a list passes the `'vnext' in ...` test as a substring or element test. Those incidental paths are not modelled. In particular, a non-list `outbounds` is not a silent no-op in the code: apart from an empty string or empty object, it raises.
- In-place mutation is modelled by value. The scripts change nested dicts in place. The methods instead rebuild each changed object and store it back where it was. `json.load` never shares a container between two places in the tree, so no other part of the document can observe the difference.
- JSON numbers are kept as their literal text and never compared or computed with. Neither script reads them.
- Repeated keys in the file are not modelled. `json.load` keeps the last one, so a parsed dict never holds a key twice. `Get` and `Put` act on the first member with a key, which is the same thing when keys are unique, and `Json.PutKeepsUnique` shows that the scripts' assignments keep them unique.
- Strings are Dafny strings, which hold only Unicode scalar values. A document whose strings contain a lone surrogate (`"\ud800"`, which `json.load` accepts) cannot be represented. Neither pass needs them: the scripts compare only against ASCII literals.
