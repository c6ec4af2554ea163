/** Directory listings (src/hub_api.rs): how a query becomes a remote path, and how the entries that the
    Hub returns become paths relative to the mount, with and without name encryption. */
module Listing {
  import opened Prelude
  import opened PathText
  import opened PathCipher

  datatype TreeEntry = TreeEntry(path: Text, size: nat)

  /** A client scoped to `pathPrefix`, encrypting names if it has a cipher. */
  datatype Client = Client(pathPrefix: Text, cipher: Option<Hctr2>)

  datatype HubError = NotFound | Rejected(reason: PathError) | Failed
  datatype HubResult<+T> = Fine(value: T) | Broken(error: HubError)

  /** ".enc" */
  const ENC_ROOT: Text := [46, 101, 110, 99]

  // ---- Paths ----

  function Joined(mount: Text, path: Text): (r: Text) {
    if mount == [] then path else if path == [] then mount else mount + [SLASH] + path
  }

  /** The stored path of a plaintext bucket path. */
  ghost function StoredPath(n: Namer, path: Text): (r: Text) {
    if EncryptText(n, path) == [] then ENC_ROOT else ENC_ROOT + [SLASH] + EncryptText(n, path)
  }

  ghost function RemotePath(n: Option<Namer>, mount: Text, query: Text): (r: Text) {
    match n
    case None => Joined(mount, query)
    case Some(n) => StoredPath(n, Joined(mount, query))
  }

  ghost function NamerOpt(cipher: Option<Hctr2>): (n: Option<Namer>) {
    match cipher
    case None => None
    case Some(h) => Some(NamerOf(h))
  }

  method PrefixedPath(c: Client, path: Text) returns (r: HubResult<Text>)
    ensures r.Fine? <==> c.cipher.None? || AcceptedPath(Joined(c.pathPrefix, path))
    ensures r.Fine? ==> r.value == RemotePath(NamerOpt(c.cipher), c.pathPrefix, path)
    ensures r.Broken? ==> r.error.Rejected?
    ensures c.cipher.None? ==>
              r == Fine(if c.pathPrefix == [] then path else if path == [] then c.pathPrefix else c.pathPrefix + [47] + path)
    ensures c.cipher.Some? && r.Fine? ==>
              var whole := if c.pathPrefix == [] then path else if path == [] then c.pathPrefix else c.pathPrefix + [47] + path;
              var stored := EncryptText(NamerOf(c.cipher.value), whole);
              r.value == if stored == [] then [46, 101, 110, 99] else [46, 101, 110, 99, 47] + stored
  {
    var joined := path;
    if c.pathPrefix != [] {
      joined := if path == [] then c.pathPrefix else c.pathPrefix + [SLASH] + path;
    }
    match c.cipher
    case None => return Fine(joined);
    case Some(h) =>
      var e := EncryptPath(h, joined);
      match e
      case Err(reason) => return Broken(Rejected(reason));
      case Ok(encrypted) =>
        assert ENC_ROOT + [SLASH] == [46, 101, 110, 99, 47];
        return Fine(if encrypted == [] then ENC_ROOT else ENC_ROOT + [SLASH] + encrypted);
  }

  /** `strip_path_prefix`. */
  function StripMount(mount: Text, full: Text): (r: Option<Text>) {
    if mount == [] then Some(full)
    else if full == mount then Some([])
    else StrictDescendantRel(full, mount, SLASH)
  }

  // ---- Entry by entry ----

  ghost function Below(prefix: Text, e: TreeEntry): (r: Option<TreeEntry>) {
    if prefix == [] || StrictDescendantRel(e.path, prefix, SLASH).Some? then Some(e) else None
  }

  function Unwrapped(path: Text): (r: Option<Text>) {
    match StripPrefix(path, ENC_ROOT)
    case None => None
    case Some(rest) => StripPrefix(rest, [SLASH])
  }

  ghost function Decrypted(n: Option<Namer>, e: TreeEntry): (r: Option<TreeEntry>) {
    match n
    case None => Some(e)
    case Some(n) =>
      match Unwrapped(e.path)
      case None => None
      case Some(stored) =>
        match DecryptText(n, stored)
        case None => None
        case Some(plain) => Some(e.(path := plain))
  }

  ghost function Relative(mount: Text, e: TreeEntry): (r: Option<TreeEntry>) {
    if mount == [] then Some(e)
    else
      match StripMount(mount, e.path)
      case None => None
      case Some(rel) => if rel == [] then None else Some(e.(path := rel))
  }

  ghost function ListOne(n: Option<Namer>, mount: Text, query: Text, e: TreeEntry): (r: Option<TreeEntry>) {
    match Below(RemotePath(n, mount, query), e)
    case None => None
    case Some(e1) =>
      match Decrypted(n, e1)
      case None => None
      case Some(e2) => Relative(mount, e2)
  }

  // ---- Lists ----

  ghost function OptSeq<A>(x: Option<A>): (s: seq<A>) {
    match x
    case None => []
    case Some(v) => [v]
  }

  /** Keeps what `f` keeps, as it rewrites it, in order. */
  ghost function FilterMap<A, B>(f: A -> Option<B>, s: seq<A>): (r: seq<B>) {
    if s == [] then [] else FilterMap(f, s[..|s| - 1]) + OptSeq(f(s[|s| - 1]))
  }

  lemma FilterMapNext<A, B>(f: A -> Option<B>, s: seq<A>, i: nat)
    requires i < |s|
    ensures FilterMap(f, s[..i + 1]) == FilterMap(f, s[..i]) + OptSeq(f(s[i]))
  {
    assert s[..i + 1][..i] == s[..i];
  }

  lemma FilterMapAppend<A, B>(f: A -> Option<B>, s: seq<A>, x: Option<A>)
    ensures FilterMap(f, s + OptSeq(x)) == FilterMap(f, s) + (if x.None? then [] else OptSeq(f(x.value)))
  {
    match x
    case None => assert s + [] == s;
    case Some(v) => assert (s + [v])[..|s|] == s;
  }

  /** Three passes over the list are one pass with the three rewritings in turn. */
  lemma {:induction false} PassesCompose(n: Option<Namer>, mount: Text, query: Text, s: seq<TreeEntry>)
    ensures FilterMap((e: TreeEntry) => Relative(mount, e),
              FilterMap((e: TreeEntry) => Decrypted(n, e),
                FilterMap((e: TreeEntry) => Below(RemotePath(n, mount, query), e), s)))
         == FilterMap((e: TreeEntry) => ListOne(n, mount, query, e), s)
  {
    if s != [] {
      var prefix := RemotePath(n, mount, query);
      var f := (e: TreeEntry) => Below(prefix, e);
      var g := (e: TreeEntry) => Decrypted(n, e);
      var k := (e: TreeEntry) => Relative(mount, e);
      var front, last := s[..|s| - 1], s[|s| - 1];
      PassesCompose(n, mount, query, front);
      var x := f(last);
      FilterMapAppend(g, FilterMap(f, front), x);
      var y: Option<TreeEntry> := if x.None? then None else g(x.value);
      FilterMapAppend(k, FilterMap(g, FilterMap(f, front)), y);
    }
  }

  ghost function ListEntries(n: Option<Namer>, mount: Text, query: Text, entries: seq<TreeEntry>): (r: seq<TreeEntry>) {
    FilterMap((e: TreeEntry) => ListOne(n, mount, query, e), entries)
  }

  // ---- The passes ----

  method RetainBelow(entries: seq<TreeEntry>, prefix: Text) returns (r: seq<TreeEntry>)
    ensures r == FilterMap((e: TreeEntry) => Below(prefix, e), entries)
  {
    ghost var f := (e: TreeEntry) => Below(prefix, e);
    r := [];
    for i := 0 to |entries|
      invariant r == FilterMap(f, entries[..i])
    {
      FilterMapNext(f, entries, i);
      if prefix == [] || StrictDescendantRel(entries[i].path, prefix, SLASH).Some? {
        r := r + [entries[i]];
      }
    }
    assert entries[..|entries|] == entries;
  }

  method DecryptListing(cipher: Option<Hctr2>, entries: seq<TreeEntry>) returns (r: seq<TreeEntry>)
    requires cipher.Some? ==> cipher.value.Sound()
    ensures r == FilterMap((e: TreeEntry) => Decrypted(NamerOpt(cipher), e), entries)
  {
    ghost var n := NamerOpt(cipher);
    ghost var f := (e: TreeEntry) => Decrypted(n, e);
    r := [];
    for i := 0 to |entries|
      invariant r == FilterMap(f, entries[..i])
    {
      FilterMapNext(f, entries, i);
      match cipher {
        case None => r := r + [entries[i]];
        case Some(h) =>
          var stored := Unwrapped(entries[i].path);
          if stored.Some? {
            var plain := DecryptPath(h, stored.value);
            if plain.Some? {
              r := r + [entries[i].(path := plain.value)];
            }
          }
      }
    }
    assert entries[..|entries|] == entries;
  }

  method StripEntries(mount: Text, entries: seq<TreeEntry>) returns (r: seq<TreeEntry>)
    ensures r == FilterMap((e: TreeEntry) => Relative(mount, e), entries)
  {
    ghost var f := (e: TreeEntry) => Relative(mount, e);
    r := [];
    for i := 0 to |entries|
      invariant r == FilterMap(f, entries[..i])
    {
      FilterMapNext(f, entries, i);
      if mount == [] {
        r := r + [entries[i]];
      } else {
        var rel := StripMount(mount, entries[i].path);
        if rel.Some? && rel.value != [] {
          r := r + [entries[i].(path := rel.value)];
        }
      }
    }
    assert entries[..|entries|] == entries;
  }

  /** `list_tree`, given the Hub's answer for the remote path.  A missing root of an encrypted,
      unscoped mount is an empty listing; every other error is passed on. */
  method ListTree(c: Client, query: Text, hub: HubResult<seq<TreeEntry>>) returns (r: HubResult<seq<TreeEntry>>)
    requires c.cipher.Some? ==> c.cipher.value.Sound()
    ensures c.cipher.Some? && !AcceptedPath(Joined(c.pathPrefix, query)) ==> r.Broken? && r.error.Rejected?
    ensures (c.cipher.None? || AcceptedPath(Joined(c.pathPrefix, query))) ==>
              match hub
              case Fine(entries) => r == Fine(ListEntries(NamerOpt(c.cipher), c.pathPrefix, query, entries))
              case Broken(e) =>
                r == if e.NotFound? && c.cipher.Some? && query == [] && c.pathPrefix == [] then Fine([]) else Broken(e)
  {
    var apiPrefix := PrefixedPath(c, query);
    if apiPrefix.Broken? {
      return Broken(apiPrefix.error);
    }
    var entries: seq<TreeEntry>;
    match hub {
      case Fine(es) => entries := es;
      case Broken(e) =>
        if e.NotFound? && c.cipher.Some? && query == [] && c.pathPrefix == [] {
          entries := [];
        } else {
          return Broken(e);
        }
    }
    ghost var all := entries;
    entries := RetainBelow(entries, apiPrefix.value);
    entries := DecryptListing(c.cipher, entries);
    entries := StripEntries(c.pathPrefix, entries);
    PassesCompose(NamerOpt(c.cipher), c.pathPrefix, query, all);
    return Fine(entries);
  }

  // ---- Encrypted listings ----

  /** A plaintext object path that the cipher can store. */
  ghost predicate Storable(path: Text) {
    path != [] && AcceptedPath(path) && Utf8.WellFormed(path)
  }

  /** The components of a path; the root has none. */
  function Comps(path: Text): (cs: seq<Text>) {
    if path == [] then [] else Split(path, SLASH)
  }

  lemma CompsOk(path: Text)
    requires AcceptedPath(path) && Utf8.WellFormed(path)
    ensures AllAccepted(Comps(path)) && AllWellFormed(Comps(path)) && AllComponents(Comps(path), SLASH)
    ensures Join(Comps(path), SLASH) == path
  {
    if path != [] {
      JoinSplit(path, SLASH);
      SplitWellFormed(path);
      assert AllAccepted(Comps(path));
    }
    forall i | 0 <= i < |Comps(path)|
      ensures Component(Comps(path)[i], SLASH)
    {
      assert Accepted(Comps(path)[i]);
    }
  }

  /** The stored path is the wrapper directory followed by the stored components. */
  lemma StoredJoin(n: Namer, path: Text)
    requires n.Sound() && AcceptedPath(path) && Utf8.WellFormed(path)
    ensures AllComponents([ENC_ROOT] + EncryptParts(n, Comps(path)), SLASH)
    ensures StoredPath(n, path) == Join([ENC_ROOT] + EncryptParts(n, Comps(path)), SLASH)
    ensures path != [] ==> StoredPath(n, path) == ENC_ROOT + [SLASH] + EncryptText(n, path)
  {
    var parts := EncryptParts(n, Comps(path));
    CompsOk(path);
    PartsStored(n, Comps(path));
    var all := [ENC_ROOT] + parts;
    forall i | 0 <= i < |all|
      ensures Component(all[i], SLASH)
    {
      if i > 0 { assert Component(parts[i - 1], SLASH); }
    }
    if path != [] {
      StoredSplits(n, path);
      JoinConcat([ENC_ROOT], parts, SLASH);
    } else {
      assert all == [ENC_ROOT];
    }
  }

  lemma ConsPrefix(x: Text, d: seq<Text>, p: seq<Text>)
    ensures [x] + d < [x] + p <==> d < p
  {
    var xd, xp := [x] + d, [x] + p;
    assert xd[1..] == d && xp[1..] == p;
    if d < p {
      assert xp == xd + p[|d|..];
    }
    if xd < xp {
      assert p[..|d|] == xp[1..1 + |d|];
    }
  }

  /** "Strictly below" means the same in stored and in plaintext coordinates. */
  lemma BelowAgrees(n: Namer, dir: Text, path: Text)
    requires n.Sound() && AcceptedPath(dir) && Utf8.WellFormed(dir) && Storable(path)
    ensures StrictDescendantRel(StoredPath(n, path), StoredPath(n, dir), SLASH).Some?
       <==> dir == [] || StrictDescendantRel(path, dir, SLASH).Some?
  {
    StoredJoin(n, dir);
    StoredJoin(n, path);
    CompsOk(dir);
    CompsOk(path);
    var d, p := EncryptParts(n, Comps(dir)), EncryptParts(n, Comps(path));
    DescendantIff([ENC_ROOT] + p, [ENC_ROOT] + d, SLASH);
    ConsPrefix(ENC_ROOT, d, p);
    PrefixIff(n, Comps(dir), Comps(path));
    if dir != [] {
      DescendantIff(Comps(path), Comps(dir), SLASH);
    }
  }

  lemma UnwrapStored(n: Namer, path: Text)
    requires n.Sound() && Storable(path)
    ensures Unwrapped(StoredPath(n, path)) == Some(EncryptText(n, path))
  {
    StoredJoin(n, path);
    var s := StoredPath(n, path);
    var rest := [SLASH] + EncryptText(n, path);
    assert s == ENC_ROOT + rest;
    assert s[|ENC_ROOT|..] == rest && rest[1..] == EncryptText(n, path);
  }

  /** One object: listed under the same path whether it is stored encrypted or in plaintext. */
  lemma ListOneAgrees(n: Namer, mount: Text, query: Text, e: TreeEntry)
    requires n.Sound() && Storable(e.path)
    requires AcceptedPath(Joined(mount, query)) && Utf8.WellFormed(Joined(mount, query))
    ensures ListOne(Some(n), mount, query, e.(path := StoredPath(n, e.path))) == ListOne(None, mount, query, e)
  {
    BelowAgrees(n, Joined(mount, query), e.path);
    UnwrapStored(n, e.path);
    PathRoundTrip(n, e.path);
    StoredJoin(n, Joined(mount, query));
  }

  /** What is in a bucket: objects that an encrypting client stored, and others. */
  datatype Object = Stored(entry: TreeEntry) | Foreign(entry: TreeEntry)

  ghost predicate ObjectOk(n: Namer, o: Object) {
    match o
    case Stored(e) => Storable(e.path)
    case Foreign(e) => Decrypted(Some(n), e).None?
  }

  ghost function Held(n: Namer, o: Object): (e: TreeEntry) {
    match o
    case Stored(e) => e.(path := StoredPath(n, e.path))
    case Foreign(e) => e
  }

  ghost function Bucket(n: Namer, objects: seq<Object>): (r: seq<TreeEntry>) {
    if objects == [] then [] else Bucket(n, objects[..|objects| - 1]) + [Held(n, objects[|objects| - 1])]
  }

  /** The stored objects with their plaintext paths. */
  ghost function Plaintext(objects: seq<Object>): (r: seq<TreeEntry>) {
    if objects == [] then []
    else Plaintext(objects[..|objects| - 1]) + if objects[|objects| - 1].Stored? then [objects[|objects| - 1].entry] else []
  }

  lemma ListNext(n: Option<Namer>, mount: Text, query: Text, s: seq<TreeEntry>, e: TreeEntry)
    ensures ListEntries(n, mount, query, s + [e]) == ListEntries(n, mount, query, s) + OptSeq(ListOne(n, mount, query, e))
  {
    FilterMapAppend((e: TreeEntry) => ListOne(n, mount, query, e), s, Some(e));
  }

  /** One object adds the same to both listings. */
  lemma ObjectAgrees(n: Namer, mount: Text, query: Text, o: Object)
    requires n.Sound() && AcceptedPath(Joined(mount, query)) && Utf8.WellFormed(Joined(mount, query)) && ObjectOk(n, o)
    ensures ListOne(Some(n), mount, query, Held(n, o)) ==
            if o.Stored? then ListOne(None, mount, query, o.entry) else None
  {
    if o.Stored? {
      ListOneAgrees(n, mount, query, o.entry);
    }
  }

  /** An encrypting client lists exactly what a plaintext client would list if the objects had been
      stored in plaintext, in the same order; foreign objects in the same bucket never show. */
  lemma {:induction false} EncryptedListingAgrees(n: Namer, mount: Text, query: Text, objects: seq<Object>)
    requires n.Sound() && AcceptedPath(Joined(mount, query)) && Utf8.WellFormed(Joined(mount, query))
    requires forall i :: 0 <= i < |objects| ==> ObjectOk(n, objects[i])
    ensures ListEntries(Some(n), mount, query, Bucket(n, objects)) == ListEntries(None, mount, query, Plaintext(objects))
  {
    if objects != [] {
      var front, o := objects[..|objects| - 1], objects[|objects| - 1];
      EncryptedListingAgrees(n, mount, query, front);
      ListingsGrow(n, mount, query, Bucket(n, front), Plaintext(front), o);
    }
  }

  lemma ListingsGrow(n: Namer, mount: Text, query: Text, held: seq<TreeEntry>, plain: seq<TreeEntry>, o: Object)
    requires n.Sound() && AcceptedPath(Joined(mount, query)) && Utf8.WellFormed(Joined(mount, query)) && ObjectOk(n, o)
    requires ListEntries(Some(n), mount, query, held) == ListEntries(None, mount, query, plain)
    ensures ListEntries(Some(n), mount, query, held + [Held(n, o)])
         == ListEntries(None, mount, query, plain + if o.Stored? then [o.entry] else [])
  {
    ObjectAgrees(n, mount, query, o);
    ListNext(Some(n), mount, query, held, Held(n, o));
    if o.Stored? {
      ListNext(None, mount, query, plain, o.entry);
    } else {
      assert plain + [] == plain;
    }
  }

  // ---- What a listing contains ----

  lemma JoinedComps(mount: seq<Text>, query: seq<Text>)
    requires AllComponents(mount, SLASH) && AllComponents(query, SLASH)
    ensures Joined(Join(mount, SLASH), Join(query, SLASH)) == Join(mount + query, SLASH)
  {
    if mount == [] {
      assert mount + query == query;
    } else {
      JoinNonEmpty(mount, SLASH);
      if query == [] {
        assert mount + query == mount;
      } else {
        JoinNonEmpty(query, SLASH);
        JoinConcat(mount, query, SLASH);
      }
    }
  }

  lemma AppendComponents(a: seq<Text>, b: seq<Text>)
    requires AllComponents(a, SLASH) && AllComponents(b, SLASH)
    ensures AllComponents(a + b, SLASH)
  {
    forall i | 0 <= i < |a + b|
      ensures Component((a + b)[i], SLASH)
    {
      if i < |a| { assert Component(a[i], SLASH); } else { assert Component(b[i - |a|], SLASH); }
    }
  }

  lemma BelowIff(dir: seq<Text>, path: seq<Text>, size: nat)
    requires AllComponents(dir, SLASH) && AllComponents(path, SLASH) && path != []
    ensures var e := TreeEntry(Join(path, SLASH), size);
            Below(Join(dir, SLASH), e) == if dir < path then Some(e) else None
  {
    if dir != [] {
      JoinNonEmpty(dir, SLASH);
      DescendantIff(path, dir, SLASH);
    }
  }

  lemma RelativeBelow(mount: seq<Text>, path: seq<Text>, size: nat)
    requires AllComponents(mount, SLASH) && AllComponents(path, SLASH) && mount < path
    ensures Relative(Join(mount, SLASH), TreeEntry(Join(path, SLASH), size))
         == Some(TreeEntry(Join(path[|mount|..], SLASH), size))
  {
    if mount != [] {
      JoinNonEmpty(mount, SLASH);
      DescendantIff(path, mount, SLASH);
      if Join(path, SLASH) == Join(mount, SLASH) { JoinInjective(path, mount, SLASH); }
    } else {
      assert path[0..] == path;
    }
  }

  /** A plaintext object is listed exactly when it is strictly below the query, and then under its
      path relative to the mount. */
  lemma ListedIff(mount: seq<Text>, query: seq<Text>, path: seq<Text>, size: nat)
    requires AllComponents(mount, SLASH) && AllComponents(query, SLASH) && AllComponents(path, SLASH) && path != []
    ensures ListOne(None, Join(mount, SLASH), Join(query, SLASH), TreeEntry(Join(path, SLASH), size))
         == if mount + query < path then Some(TreeEntry(Join(path[|mount|..], SLASH), size)) else None
  {
    JoinedComps(mount, query);
    AppendComponents(mount, query);
    BelowIff(mount + query, path, size);
    if mount + query < path {
      assert (mount + query)[..|mount|] == mount;
      RelativeBelow(mount, path, size);
    }
  }
}
