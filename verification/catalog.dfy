/** The provider's resource catalog: flavors, images, networks and IP
    availabilities, each indexed once by name and once by id, plus the
    account limits snapshot. */
module Catalog {
  import opened Wrappers

  datatype Flavor = Flavor(name: string, id: string, vcpus: int, ram: int)
  datatype Image = Image(name: string, id: string)
  datatype Network = Network(name: string, id: string)
  datatype IpAvailability = IpAvailability(networkName: string, networkId: string, totalIps: int, usedIps: int)

  /** `limits.absolute` of the compute API. */
  datatype Limits = Limits(totalCoresUsed: int, totalRAMUsed: int, maxTotalCores: int, maxTotalRAMSize: int)

  /** The two maps kept per resource kind. */
  datatype Index<E> = Index(byName: map<string, E>, byRef: map<string, E>)

  datatype Catalog = Catalog(
    flavors: Index<Flavor>,
    images: Index<Image>,
    networks: Index<Network>,
    ips: Index<IpAvailability>,
    limits: Limits)

  function FlavorName(f: Flavor): string { f.name }
  function FlavorId(f: Flavor): string { f.id }
  function ImageName(i: Image): string { i.name }
  function ImageId(i: Image): string { i.id }
  function NetworkName(n: Network): string { n.name }
  function NetworkId(n: Network): string { n.id }
  function IpsName(a: IpAvailability): string { a.networkName }
  function IpsId(a: IpAvailability): string { a.networkId }

  function EmptyIndex<E>(): Index<E> {
    Index(map[], map[])
  }

  /** A freshly constructed provider: nothing indexed, no limits loaded. */
  function EmptyCatalog(limits: Limits): Catalog {
    Catalog(EmptyIndex(), EmptyIndex(), EmptyIndex(), EmptyIndex(), limits)
  }

  /** Stores every entry under its key, in list order, overwriting. */
  function Upsert<E>(m: map<string, E>, entries: seq<E>, key: E -> string): map<string, E>
    decreases |entries|
  {
    if entries == [] then m
    else Upsert(m[key(entries[0]) := entries[0]], entries[1..], key)
  }

  /** The body of `set_flavors` and its siblings. */
  function Extend<E>(idx: Index<E>, entries: seq<E>, name: E -> string, id: E -> string): Index<E> {
    Index(Upsert(idx.byName, entries, name), Upsert(idx.byRef, entries, id))
  }

  /** `get_flavor(name, ref)` and its siblings: the name index first, the id
      index only when the name misses. An absent argument (None) never hits. */
  function Lookup<E(==)>(idx: Index<E>, name: Option<string>, ref: Option<string>): (r: Option<E>)
    ensures r.Some? ==> r.value in idx.byName.Values + idx.byRef.Values
    ensures name.Some? && name.value in idx.byName ==> r == Some(idx.byName[name.value])
    ensures !(name.Some? && name.value in idx.byName) && ref.Some? && ref.value in idx.byRef
            ==> r == Some(idx.byRef[ref.value])
    ensures r.None? <==> !(name.Some? && name.value in idx.byName) && !(ref.Some? && ref.value in idx.byRef)
  {
    if name.Some? && name.value in idx.byName then Some(idx.byName[name.value])
    else if ref.Some? && ref.value in idx.byRef then Some(idx.byRef[ref.value])
    else None
  }

  function SetFlavors(c: Catalog, flavors: seq<Flavor>): Catalog {
    c.(flavors := Extend(c.flavors, flavors, FlavorName, FlavorId))
  }

  function SetImages(c: Catalog, images: seq<Image>): Catalog {
    c.(images := Extend(c.images, images, ImageName, ImageId))
  }

  function SetNetworks(c: Catalog, networks: seq<Network>): Catalog {
    c.(networks := Extend(c.networks, networks, NetworkName, NetworkId))
  }

  /** The indexing loop of `load_ip_availabilities`. */
  function SetIpAvailabilities(c: Catalog, ips: seq<IpAvailability>): Catalog {
    c.(ips := Extend(c.ips, ips, IpsName, IpsId))
  }

  /** The image list `load_images` accumulates: every page, in order. */
  function Concat<T>(pages: seq<seq<T>>): seq<T>
    decreases |pages|
  {
    if pages == [] then [] else pages[0] + Concat(pages[1..])
  }

  /** `load_images`: all pages are accumulated first, then indexed once. */
  function LoadImages(c: Catalog, pages: seq<seq<Image>>): Catalog {
    SetImages(c, Concat(pages))
  }

  /** What `init` leaves behind after its loads succeed. */
  function Load(flavors: seq<Flavor>, imagePages: seq<seq<Image>>, networks: seq<Network>,
                ips: seq<IpAvailability>, limits: Limits): Catalog
  {
    var c := SetFlavors(EmptyCatalog(limits), flavors);
    var c := LoadImages(c, imagePages);
    var c := SetNetworks(c, networks);
    SetIpAvailabilities(c, ips)
  }

  /** No two entries share a key. */
  ghost predicate UniqueKeys<E>(entries: seq<E>, key: E -> string) {
    forall i, j :: 0 <= i < j < |entries| ==> key(entries[i]) != key(entries[j])
  }

  // ---------------------------------------------------------------------
  // Indexing is last-write-wins per key.

  /** After indexing, a key is present iff it was before or some entry has
      it; the entry stored is the LAST one with that key, and keys no entry
      carries keep their previous value. */
  lemma {:induction false} UpsertLastWriteWins<E>(m: map<string, E>, entries: seq<E>, key: E -> string, k: string)
    ensures k in Upsert(m, entries, key) <==> k in m || exists i :: 0 <= i < |entries| && key(entries[i]) == k
    ensures forall i :: 0 <= i < |entries| && key(entries[i]) == k
                        && (forall j :: i < j < |entries| ==> key(entries[j]) != k)
                        ==> Upsert(m, entries, key)[k] == entries[i]
    ensures (forall i :: 0 <= i < |entries| ==> key(entries[i]) != k) && k in m
            ==> Upsert(m, entries, key)[k] == m[k]
    decreases |entries|
  {
    if entries != [] {
      var m' := m[key(entries[0]) := entries[0]];
      var rest := entries[1..];
      UpsertLastWriteWins(m', rest, key, k);
      assert forall i :: 1 <= i < |entries| ==> entries[i] == rest[i - 1];
      forall i | 0 <= i < |entries| && key(entries[i]) == k
                 && (forall j :: i < j < |entries| ==> key(entries[j]) != k)
        ensures Upsert(m, entries, key)[k] == entries[i]
      {
        if i == 0 {
          assert forall j :: 0 <= j < |rest| ==> key(rest[j]) != k by {
            forall j | 0 <= j < |rest| ensures key(rest[j]) != k {
              assert rest[j] == entries[j + 1];
            }
          }
        } else {
          assert rest[i - 1] == entries[i];
          assert forall j :: i - 1 < j < |rest| ==> key(rest[j]) != k by {
            forall j | i - 1 < j < |rest| ensures key(rest[j]) != k {
              assert rest[j] == entries[j + 1];
            }
          }
        }
      }
      if exists i :: 0 <= i < |entries| && key(entries[i]) == k {
        var i :| 0 <= i < |entries| && key(entries[i]) == k;
        if i > 0 {
          assert key(rest[i - 1]) == k;
        }
      }
    }
  }

  /** Indexing a concatenation is indexing its parts one after the other. */
  lemma {:induction false} UpsertAppend<E>(m: map<string, E>, a: seq<E>, b: seq<E>, key: E -> string)
    ensures Upsert(m, a + b, key) == Upsert(Upsert(m, a, key), b, key)
    decreases |a|
  {
    if a != [] {
      assert (a + b)[0] == a[0];
      assert (a + b)[1..] == a[1..] + b;
      UpsertAppend(m[key(a[0]) := a[0]], a[1..], b, key);
    } else {
      assert a + b == b;
    }
  }

  // ---------------------------------------------------------------------
  // Lookup through a loaded index.

  /** When loaded names and ids are unique, looking an entry up by its name
      gives that entry, and so does looking it up by its id alone: the id of
      the name's hit and the name of the id's hit are the entry's own. */
  lemma LoadedLookupRoundTrip<E>(entries: seq<E>, name: E -> string, id: E -> string, i: nat)
    requires i < |entries|
    requires UniqueKeys(entries, name) && UniqueKeys(entries, id)
    ensures Lookup(Extend(EmptyIndex(), entries, name, id), Some(name(entries[i])), None) == Some(entries[i])
    ensures Lookup(Extend(EmptyIndex(), entries, name, id), None, Some(id(entries[i]))) == Some(entries[i])
  {
    UpsertLastWriteWins(map[], entries, name, name(entries[i]));
    UpsertLastWriteWins(map[], entries, id, id(entries[i]));
  }

  /** Name beats reference: when a name and another entry's id are both
      given, the named entry is returned. */
  lemma NameBeatsRef<E>(entries: seq<E>, name: E -> string, id: E -> string, i: nat, j: nat)
    requires i < |entries| && j < |entries|
    requires UniqueKeys(entries, name)
    ensures Lookup(Extend(EmptyIndex(), entries, name, id), Some(name(entries[i])), Some(id(entries[j])))
            == Some(entries[i])
  {
    UpsertLastWriteWins(map[], entries, name, name(entries[i]));
  }

  /** A name or id no loaded entry carries finds nothing. */
  lemma LookupMiss<E>(entries: seq<E>, name: E -> string, id: E -> string, n: string, r: string)
    requires forall i :: 0 <= i < |entries| ==> name(entries[i]) != n && id(entries[i]) != r
    ensures Lookup(Extend(EmptyIndex(), entries, name, id), Some(n), Some(r)) == None
  {
    UpsertLastWriteWins(map[], entries, name, n);
    UpsertLastWriteWins(map[], entries, id, r);
  }

  /** The catalog built by `init` answers the round trip for every kind. */
  lemma LoadRoundTrip(flavors: seq<Flavor>, imagePages: seq<seq<Image>>, networks: seq<Network>,
                      ips: seq<IpAvailability>, limits: Limits)
    requires UniqueKeys(flavors, FlavorName) && UniqueKeys(flavors, FlavorId)
    requires UniqueKeys(Concat(imagePages), ImageName) && UniqueKeys(Concat(imagePages), ImageId)
    requires UniqueKeys(networks, NetworkName) && UniqueKeys(networks, NetworkId)
    requires UniqueKeys(ips, IpsName) && UniqueKeys(ips, IpsId)
    ensures var c := Load(flavors, imagePages, networks, ips, limits);
      && (forall f :: f in flavors ==>
            Lookup(c.flavors, Some(f.name), None) == Some(f) && Lookup(c.flavors, None, Some(f.id)) == Some(f))
      && (forall im :: im in Concat(imagePages) ==>
            Lookup(c.images, Some(im.name), None) == Some(im) && Lookup(c.images, None, Some(im.id)) == Some(im))
      && (forall n :: n in networks ==>
            Lookup(c.networks, Some(n.name), None) == Some(n) && Lookup(c.networks, None, Some(n.id)) == Some(n))
      && (forall a :: a in ips ==>
            Lookup(c.ips, Some(a.networkName), None) == Some(a) && Lookup(c.ips, None, Some(a.networkId)) == Some(a))
      && c.limits == limits
  {
    var images := Concat(imagePages);
    forall f | f in flavors
      ensures Lookup(Extend(EmptyIndex(), flavors, FlavorName, FlavorId), Some(f.name), None) == Some(f)
      ensures Lookup(Extend(EmptyIndex(), flavors, FlavorName, FlavorId), None, Some(f.id)) == Some(f)
    {
      var i :| 0 <= i < |flavors| && flavors[i] == f;
      LoadedLookupRoundTrip(flavors, FlavorName, FlavorId, i);
    }
    forall im | im in images
      ensures Lookup(Extend(EmptyIndex(), images, ImageName, ImageId), Some(im.name), None) == Some(im)
      ensures Lookup(Extend(EmptyIndex(), images, ImageName, ImageId), None, Some(im.id)) == Some(im)
    {
      var i :| 0 <= i < |images| && images[i] == im;
      LoadedLookupRoundTrip(images, ImageName, ImageId, i);
    }
    forall n | n in networks
      ensures Lookup(Extend(EmptyIndex(), networks, NetworkName, NetworkId), Some(n.name), None) == Some(n)
      ensures Lookup(Extend(EmptyIndex(), networks, NetworkName, NetworkId), None, Some(n.id)) == Some(n)
    {
      var i :| 0 <= i < |networks| && networks[i] == n;
      LoadedLookupRoundTrip(networks, NetworkName, NetworkId, i);
    }
    forall a | a in ips
      ensures Lookup(Extend(EmptyIndex(), ips, IpsName, IpsId), Some(a.networkName), None) == Some(a)
      ensures Lookup(Extend(EmptyIndex(), ips, IpsName, IpsId), None, Some(a.networkId)) == Some(a)
    {
      var i :| 0 <= i < |ips| && ips[i] == a;
      LoadedLookupRoundTrip(ips, IpsName, IpsId, i);
    }
  }

  // ---------------------------------------------------------------------
  // Image pagination.

  /** An image is in the accumulated list iff it is on some page. */
  lemma {:induction false} ConcatMembership<T>(pages: seq<seq<T>>, x: T)
    ensures x in Concat(pages) <==> exists p :: 0 <= p < |pages| && x in pages[p]
    decreases |pages|
  {
    if pages != [] {
      ConcatMembership(pages[1..], x);
      if x in Concat(pages[1..]) {
        var p :| 0 <= p < |pages[1..]| && x in pages[1..][p];
        assert x in pages[p + 1];
      }
      if exists p :: 0 <= p < |pages| && x in pages[p] {
        var p :| 0 <= p < |pages| && x in pages[p];
        if p > 0 {
          assert pages[1..][p - 1] == pages[p];
        }
      }
    }
  }

  /** Indexing pages one at a time, as they arrive. */
  function SetImagePages(c: Catalog, pages: seq<seq<Image>>): Catalog
    decreases |pages|
  {
    if pages == [] then c else SetImagePages(SetImages(c, pages[0]), pages[1..])
  }

  /** Accumulating every page before indexing gives the same index as
      indexing the pages one after another. */
  lemma {:induction false} LoadImagesPageByPage(c: Catalog, pages: seq<seq<Image>>)
    ensures LoadImages(c, pages) == SetImagePages(c, pages)
    decreases |pages|
  {
    if pages == [] {
      assert Upsert(c.images.byName, [], ImageName) == c.images.byName;
      assert Upsert(c.images.byRef, [], ImageId) == c.images.byRef;
    } else {
      UpsertAppend(c.images.byName, pages[0], Concat(pages[1..]), ImageName);
      UpsertAppend(c.images.byRef, pages[0], Concat(pages[1..]), ImageId);
      LoadImagesPageByPage(SetImages(c, pages[0]), pages[1..]);
    }
  }

  /** No image of any page is lost and nothing else appears: the id index of
      a fresh provider holds exactly the ids found on the pages. */
  lemma LoadImagesComplete(limits: Limits, pages: seq<seq<Image>>, ref: string)
    ensures ref in LoadImages(EmptyCatalog(limits), pages).images.byRef
            <==> exists p, k :: 0 <= p < |pages| && 0 <= k < |pages[p]| && pages[p][k].id == ref
  {
    var all := Concat(pages);
    UpsertLastWriteWins(map[], all, ImageId, ref);
    if exists i :: 0 <= i < |all| && ImageId(all[i]) == ref {
      var i :| 0 <= i < |all| && ImageId(all[i]) == ref;
      ConcatMembership(pages, all[i]);
      var p :| 0 <= p < |pages| && all[i] in pages[p];
      var k :| 0 <= k < |pages[p]| && pages[p][k] == all[i];
    }
    if exists p, k :: 0 <= p < |pages| && 0 <= k < |pages[p]| && pages[p][k].id == ref {
      var p, k :| 0 <= p < |pages| && 0 <= k < |pages[p]| && pages[p][k].id == ref;
      ConcatMembership(pages, pages[p][k]);
      var i :| 0 <= i < |all| && all[i] == pages[p][k];
    }
  }
}
