/** Turning a loosely typed host requirement into catalog entries
    (`_translate_flavor`, `_translate_image`, `_translate_networks`),
    validating requirements, and building the POST /servers payload. */
module Resolver {
  import opened Wrappers
  import opened Json
  import opened Catalog
  import opened Errors

  /** The shared precedence of `_translate_flavor` and `_translate_image`:
      a truthy `*Ref` field is looked up by id; a truthy name field is then
      looked up by name and by id, and its outcome replaces the `*Ref`
      outcome, a miss included. Falsy fields count as absent. */
  function Resolve<E(==)>(idx: Index<E>, spec: Json, ref: Json): (r: Option<E>)
    ensures Truthy(spec) && spec.Str? && spec.s in idx.byName ==> r == Some(idx.byName[spec.s])
    ensures Truthy(spec) && spec.Str? && spec.s !in idx.byName && spec.s in idx.byRef
            ==> r == Some(idx.byRef[spec.s])
    ensures Truthy(spec) && !(spec.Str? && (spec.s in idx.byName || spec.s in idx.byRef)) ==> r == None
    ensures !Truthy(spec) && Truthy(ref) && ref.Str? && ref.s in idx.byRef ==> r == Some(idx.byRef[ref.s])
    ensures !Truthy(spec) && !(Truthy(ref) && ref.Str? && ref.s in idx.byRef) ==> r == None
  {
    var byRef := if Truthy(ref) then Lookup(idx, None, AsKey(ref)) else None;
    if Truthy(spec) then Lookup(idx, AsKey(spec), AsKey(spec)) else byRef
  }

  /** A truthy name field decides alone: whatever the `*Ref` field holds,
      the outcome is the name field's, a miss included. */
  lemma SpecOverridesRef<E>(idx: Index<E>, spec: Json, ref: Json)
    requires Truthy(spec)
    ensures Resolve(idx, spec, ref) == Resolve(idx, spec, Null)
    ensures Resolve(idx, spec, ref).None? <==> !(spec.Str? && (spec.s in idx.byName || spec.s in idx.byRef))
  {
  }

  /** Without a truthy name field, resolution is by id only: a name placed
      in the `*Ref` field finds nothing unless it is also an id. */
  lemma RefResolvesByIdOnly<E>(idx: Index<E>, ref: string)
    requires ref != ""
    ensures Resolve(idx, Null, Str(ref)) == (if ref in idx.byRef then Some(idx.byRef[ref]) else None)
  {
  }

  /** `_translate_flavor`. */
  function TranslateFlavor(c: Catalog, req: Dict): (r: Result<Flavor, Error>)
    ensures r.Success? <==> Resolve(c.flavors, Get(req, "flavor"), Get(req, "flavorRef")).Some?
    ensures r.Success? ==> r.value == Resolve(c.flavors, Get(req, "flavor"), Get(req, "flavorRef")).value
    ensures r.Failure? ==> r.error == ValidationError(FlavorNotFound(Get(req, "flavor"), Get(req, "flavorRef")))
  {
    var spec := Get(req, "flavor");
    var ref := Get(req, "flavorRef");
    match Resolve(c.flavors, spec, ref)
    case None => Failure(ValidationError(FlavorNotFound(spec, ref)))
    case Some(f) => Success(f)
  }

  /** `_translate_image`. */
  function TranslateImage(c: Catalog, req: Dict): (r: Result<Image, Error>)
    ensures r.Success? <==> Resolve(c.images, Get(req, "image"), Get(req, "imageRef")).Some?
    ensures r.Success? ==> r.value == Resolve(c.images, Get(req, "image"), Get(req, "imageRef")).value
    ensures r.Failure? ==> r.error == ValidationError(ImageNotFound(Get(req, "image"), Get(req, "imageRef")))
  {
    var spec := Get(req, "image");
    var ref := Get(req, "imageRef");
    match Resolve(c.images, spec, ref)
    case None => Failure(ValidationError(ImageNotFound(spec, ref)))
    case Some(i) => Success(i)
  }

  /** The `networks` list of a requirement; any other value counts as empty. */
  function NetworkSpecs(req: Dict): seq<Json> {
    var v := Get(req, "networks");
    if v.List? then v.items else []
  }

  /** One entry of `networks`: `get_network(ref=network_spec.get("uuid"))`.
      An entry that is not a dict has no `get` attribute. */
  function ResolveUuid(c: Catalog, spec: Json): (r: Result<Network, Error>)
    ensures r.Success? <==> spec.Object? && Get(spec.fields, "uuid").Str? && Get(spec.fields, "uuid").s in c.networks.byRef
    ensures r.Success? ==> r.value == c.networks.byRef[Get(spec.fields, "uuid").s]
    ensures spec.Object? && r.Failure? ==> r.error == ValidationError(NetworkNotFound(spec))
    ensures !spec.Object? ==> r == Failure(RuntimeFault(MissingAttribute("get")))
  {
    if !spec.Object? then Failure(RuntimeFault(MissingAttribute("get")))
    else
      match Lookup(c.networks, None, AsKey(Get(spec.fields, "uuid")))
      case None => Failure(ValidationError(NetworkNotFound(spec)))
      case Some(n) => Success(n)
  }

  /** Both results of `_translate_networks`: the resolved networks
      (`spec=False`) and the payload's network list (`spec=True`). */
  datatype Translated = Translated(networks: seq<Network>, specs: seq<Json>)

  /** The `{"uuid": id}` entry appended for the `network` field. */
  function UuidSpec(n: Network): Json {
    Object(map["uuid" := Str(n.id)])
  }

  /** `_translate_networks`: every listed entry resolves by uuid, in order,
      failing on the first that does not; then a truthy `network` field is
      resolved by name then id and appended last. The payload list keeps the
      caller's entries verbatim. */
  function TranslateNetworks(c: Catalog, req: Dict): (r: Result<Translated, Error>)
    ensures var listed := NetworkSpecs(req);
      r.Success? <==>
        && (forall i :: 0 <= i < |listed| ==> ResolveUuid(c, listed[i]).Success?)
        && (Truthy(Get(req, "network")) ==>
              Lookup(c.networks, AsKey(Get(req, "network")), AsKey(Get(req, "network"))).Some?)
    ensures var listed := NetworkSpecs(req);
      r.Success? ==>
        && |r.value.networks| == |r.value.specs| >= |listed|
        && r.value.specs[..|listed|] == listed
        && (forall i :: 0 <= i < |listed| ==> ResolveUuid(c, listed[i]) == Success(r.value.networks[i]))
        && (!Truthy(Get(req, "network")) ==> |r.value.specs| == |listed|)
        && (Truthy(Get(req, "network")) ==>
              && |r.value.specs| == |listed| + 1
              && Some(r.value.networks[|listed|])
                 == Lookup(c.networks, AsKey(Get(req, "network")), AsKey(Get(req, "network")))
              && r.value.specs[|listed|] == UuidSpec(r.value.networks[|listed|]))
    ensures var listed := NetworkSpecs(req);
      r.Failure? && !(forall i :: 0 <= i < |listed| ==> ResolveUuid(c, listed[i]).Success?) ==>
        exists k :: 0 <= k < |listed| && ResolveUuid(c, listed[k]) == Failure(r.error)
                    && forall j :: 0 <= j < k ==> ResolveUuid(c, listed[j]).Success?
    ensures var listed := NetworkSpecs(req);
      r.Failure? && (forall i :: 0 <= i < |listed| ==> ResolveUuid(c, listed[i]).Success?) ==>
        r.error == ValidationError(NetworkNotFound(Get(req, "network")))
  {
    var listed := NetworkSpecs(req);
    var nets :- MapAll(listed, (s: Json) => ResolveUuid(c, s));
    var named := Get(req, "network");
    if Truthy(named) then
      match Lookup(c.networks, AsKey(named), AsKey(named))
      case None => Failure(ValidationError(NetworkNotFound(named)))
      case Some(n) => Success(Translated(nets + [n], listed + [UuidSpec(n)]))
    else
      Success(Translated(nets, listed))
  }

  /** `validate_host`: flavor, then image, then networks; the first failure
      is raised, and success returns True. */
  function ValidateHost(c: Catalog, req: Dict): (r: Result<bool, Error>)
    ensures r.Success? <==>
      TranslateFlavor(c, req).Success? && TranslateImage(c, req).Success? && TranslateNetworks(c, req).Success?
    ensures r.Success? ==> r.value
    ensures TranslateFlavor(c, req).Failure? ==> r.error == TranslateFlavor(c, req).error
    ensures TranslateFlavor(c, req).Success? && TranslateImage(c, req).Failure?
            ==> r.error == TranslateImage(c, req).error
    ensures TranslateFlavor(c, req).Success? && TranslateImage(c, req).Success? && TranslateNetworks(c, req).Failure?
            ==> r.error == TranslateNetworks(c, req).error
  {
    var _ :- TranslateFlavor(c, req);
    var _ :- TranslateImage(c, req);
    var _ :- TranslateNetworks(c, req);
    Success(true)
  }

  /** `validate_hosts`: every requirement in order, the first failure raised. */
  function ValidateHosts(c: Catalog, reqs: seq<Dict>): (r: Result<seq<bool>, Error>)
    ensures r.Success? <==> forall i :: 0 <= i < |reqs| ==> ValidateHost(c, reqs[i]).Success?
    ensures r.Failure? ==>
      exists k :: 0 <= k < |reqs| && ValidateHost(c, reqs[k]) == Failure(r.error)
                  && forall j :: 0 <= j < k ==> ValidateHost(c, reqs[j]).Success?
  {
    MapAll(reqs, (req: Dict) => ValidateHost(c, req))
  }

  /** The keys `create_server` writes into the payload. */
  const Rewritten: set<string> := {"flavor", "flavorRef", "image", "imageRef", "network", "networks"}

  /** One rewriting step of `create_server`: `refKey` gets the resolved
      value, and `key` is deleted when it holds a truthy value. */
  function Rewrite(s: Dict, key: string, refKey: string, value: Json): (r: Dict)
    requires key != refKey
    ensures refKey in r && r[refKey] == value
    ensures key in r <==> key in s && !Truthy(s[key])
    ensures key in r ==> r[key] == s[key]
    ensures forall k :: k in s && k != key && k != refKey ==> k in r && r[k] == s[k]
    ensures forall k :: k in r ==> k in s || k == refKey
  {
    var s' := s[refKey := value];
    if Truthy(Get(s', key)) then s' - {key} else s'
  }

  /** The rewriting `create_server` applies to its private copy of the
      requirement: the three reference keys get the resolved ids and the
      translated network list; a convenience key survives only when its value
      was falsy; every other key passes through unchanged, and nothing else is
      added. */
  function Payload(req: Dict, flavorId: string, imageId: string, networks: seq<Json>): (p: Dict)
    ensures "flavorRef" in p && p["flavorRef"] == Str(flavorId)
    ensures "imageRef" in p && p["imageRef"] == Str(imageId)
    ensures "networks" in p && p["networks"] == List(networks)
    ensures "flavor" in p <==> "flavor" in req && !Truthy(req["flavor"])
    ensures "image" in p <==> "image" in req && !Truthy(req["image"])
    ensures "network" in p <==> "network" in req && !Truthy(req["network"])
    ensures forall k :: k in req && k !in Rewritten ==> k in p && p[k] == req[k]
    ensures forall k :: k in p && k !in {"flavorRef", "imageRef", "networks"} ==> k in req && p[k] == req[k]
    ensures forall k :: k in p ==> k in req || k in {"flavorRef", "imageRef", "networks"}
  {
    var s := Rewrite(req, "flavor", "flavorRef", Str(flavorId));
    var s := Rewrite(s, "image", "imageRef", Str(imageId));
    Rewrite(s, "network", "networks", List(networks))
  }

  /** `create_server` up to the remote call: the payload for the resolved
      flavor, image and networks, or the error validation would raise. */
  function BuildPayload(c: Catalog, req: Dict): (r: Result<Dict, Error>)
    ensures r.Success? <==> ValidateHost(c, req).Success?
    ensures r.Failure? ==> r.error == ValidateHost(c, req).error
    ensures r.Success? ==>
      r.value == Payload(req, TranslateFlavor(c, req).value.id, TranslateImage(c, req).value.id,
                         TranslateNetworks(c, req).value.specs)
  {
    var flavor :- TranslateFlavor(c, req);
    var image :- TranslateImage(c, req);
    var nets :- TranslateNetworks(c, req);
    Success(Payload(req, flavor.id, image.id, nets.specs))
  }
}
