/**
 * The item tree of an uploaded collection: what each request in it inherits, how members are looked
 * up, and what editing one container does to everything else
 * (backend/src/externalCollections/collectionStructure.ts).
 */
module CollectionTree {
  import opened Sequences

  /** `usable` is the answer of `RequestAuth.isValidType` on the block's type. */
  datatype Auth = Auth(kind: string, parameters: string, usable: bool)

  /** `source` is what `event.script?.toSource()` returns. */
  datatype Event = Event(listen: string, source: Option<string>)

  /** A request keeps its auth on `request.auth`, a folder on `auth`. */
  datatype Member =
    | Item(id: string, name: string, auth: Option<Auth>, events: seq<Event>, request: string)
    | Folder(id: string, name: string, auth: Option<Auth>, events: seq<Event>, members: seq<Member>)

  // ---- What a request is sent with ----

  /** White space as `String.prototype.trim` removes it. */
  predicate IsSpace(c: char) {
    || '\t' <= c <= '\r' || c == ' ' || c == '\U{A0}' || c == '\U{1680}' || '\U{2000}' <= c <= '\U{200A}'
    || c == '\U{2028}' || c == '\U{2029}' || c == '\U{202F}' || c == '\U{205F}' || c == '\U{3000}' || c == '\U{FEFF}'
  }

  /** The code points of white space and of line ends in ECMA-262. */
  lemma WhiteSpaceIs(c: char)
    ensures IsSpace(c) <==> c as int in {0x9, 0xA, 0xB, 0xC, 0xD, 0x20, 0xA0, 0x1680, 0x2028, 0x2029, 0x202F, 0x205F, 0x3000, 0xFEFF}
                            || 0x2000 <= c as int <= 0x200A
  {
  }

  predicate IsBlank(s: string) {
    forall i :: 0 <= i < |s| ==> IsSpace(s[i])
  }

  predicate HasScript(e: Event, listen: string) {
    e.listen == listen && e.source.Some? && !IsBlank(e.source.value)
  }

  /** The scripts of one kind that are not blank. */
  function Scripts(events: seq<Event>, listen: string): seq<string> {
    if events == [] then []
    else (if HasScript(events[0], listen) then [events[0].source.value] else []) + Scripts(events[1..], listen)
  }

  /** Auth and scripts in force at a point of the tree, scripts in the order they run. */
  datatype Context = Context(auth: Option<Auth>, prerequest: seq<string>, test: seq<string>)

  function Usable(auth: Option<Auth>): Option<Auth> {
    if auth.Some? && auth.value.usable then auth else None
  }

  function Enter(c: Context, auth: Option<Auth>, events: seq<Event>): Context {
    Context(if Usable(auth).Some? then auth else c.auth,
            c.prerequest + Scripts(events, "prerequest"), c.test + Scripts(events, "test"))
  }

  function EnterMember(c: Context, m: Member): Context {
    Enter(c, m.auth, m.events)
  }

  /** The context inside the last folder of a chain. */
  function EnterAll(c: Context, chain: seq<Member>): Context
    decreases |chain|
  {
    if chain == [] then c else EnterAll(EnterMember(c, chain[0]), chain[1..])
  }

  /** What running the collection sees of a member: the request with its auth and scripts, or the folder. */
  datatype Seen = Request(id: string, name: string, request: string, sent: Context) | Holder(id: string, name: string)

  function Listing(ms: seq<Member>, c: Context): seq<Seen> {
    if ms == [] then [] else MemberListing(ms[0], c) + Listing(ms[1..], c)
  }

  function MemberListing(m: Member, c: Context): seq<Seen> {
    match m
    case Item(_, _, _, _, _) => [Request(m.id, m.name, m.request, EnterMember(c, m))]
    case Folder(_, _, _, _, members) => [Holder(m.id, m.name)] + Listing(members, EnterMember(c, m))
  }

  function Ids(ms: seq<Member>): seq<string> {
    if ms == [] then [] else MemberIds(ms[0]) + Ids(ms[1..])
  }

  function MemberIds(m: Member): seq<string> {
    [m.id] + (if m.Folder? then Ids(m.members) else [])
  }

  ghost predicate UniqueIds(ms: seq<Member>) {
    Distinct(Ids(ms))
  }

  // ---- Places and chains ----

  /** `None` is the collection root, otherwise the id of a folder. */
  type Place = Option<string>

  /** `folderPathTo` below the root: every folder down to and including the one with `id`. */
  function FolderPath(ms: seq<Member>, id: string): Option<seq<Member>> {
    if ms == [] then None
    else
      var here := if ms[0].Folder? then
                    if ms[0].id == id then Some([ms[0]])
                    else
                      var found := FolderPath(ms[0].members, id);
                      if found.Some? then Some([ms[0]] + found.value) else None
                  else None;
      if here.Some? then here else FolderPath(ms[1..], id)
  }

  /** `findContainerOf`, searching the members `ms` of the container `here`. */
  function FindContainer(here: Place, ms: seq<Member>, id: string): Option<Place>
    decreases ms
  {
    if ms == [] then None
    else if ms[0].id == id then Some(here)
    else
      var found := if ms[0].Folder? then FindContainer(Some(ms[0].id), ms[0].members, id) else None;
      if found.Some? then found else FindContainer(here, ms[1..], id)
  }

  /** A chain of folders, each a member of the one before. */
  ghost predicate IsChain(ms: seq<Member>, chain: seq<Member>)
    decreases |chain|
  {
    chain == [] || (chain[0] in ms && chain[0].Folder? && IsChain(chain[0].members, chain[1..]))
  }

  /** The members of the container a chain leads to. */
  function Inside(ms: seq<Member>, chain: seq<Member>): seq<Member> {
    if chain == [] then ms else if chain[|chain| - 1].Folder? then chain[|chain| - 1].members else []
  }

  function PlaceOf(chain: seq<Member>): Place {
    if chain == [] then None else Some(chain[|chain| - 1].id)
  }

  /** The members of the container at a place, found as the code finds it. */
  function MembersAt(ms: seq<Member>, place: Place): seq<Member> {
    if place.None? then ms
    else
      var path := FolderPath(ms, place.value);
      if path.Some? then Inside(ms, path.value) else []
  }

  // ---- Editing ----

  /** The tree with the members of the folder `id` replaced. */
  function Update(ms: seq<Member>, id: string, f: seq<Member> -> seq<Member>): seq<Member> {
    if ms == [] then [] else [UpdateMember(ms[0], id, f)] + Update(ms[1..], id, f)
  }

  function UpdateMember(m: Member, id: string, f: seq<Member> -> seq<Member>): Member {
    if m.Item? then m
    else if m.id == id then m.(members := f(m.members))
    else m.(members := Update(m.members, id, f))
  }

  function UpdateAt(ms: seq<Member>, place: Place, f: seq<Member> -> seq<Member>): seq<Member> {
    if place.None? then f(ms) else Update(ms, place.value, f)
  }

  /** The tree without the member `id`, wherever it is. */
  function Without(ms: seq<Member>, id: string): seq<Member> {
    if ms == [] then []
    else (if ms[0].id == id then [] else [WithoutInside(ms[0], id)]) + Without(ms[1..], id)
  }

  function WithoutInside(m: Member, id: string): Member {
    if m.Item? then m else m.(members := Without(m.members, id))
  }

  function HasOtherId(id: string): Member -> bool {
    (m: Member) => m.id != id
  }

  /** `items.remove((member) => member.id === id)` */
  function RemoveDirect(id: string): seq<Member> -> seq<Member> {
    (ms: seq<Member>) => Filter(ms, HasOtherId(id))
  }

  // ---- Lists of members ----

  lemma {:induction false} ListingAppend(a: seq<Member>, b: seq<Member>, c: Context)
    ensures Listing(a + b, c) == Listing(a, c) + Listing(b, c)
    decreases a
  {
    if a == [] {
      assert a + b == b;
    } else {
      assert (a + b)[1..] == a[1..] + b;
      ListingAppend(a[1..], b, c);
    }
  }

  lemma {:induction false} IdsAppend(a: seq<Member>, b: seq<Member>)
    ensures Ids(a + b) == Ids(a) + Ids(b)
    decreases a
  {
    if a == [] {
      assert a + b == b;
    } else {
      assert (a + b)[1..] == a[1..] + b;
      IdsAppend(a[1..], b);
    }
  }

  lemma {:induction false} UpdateAppend(a: seq<Member>, b: seq<Member>, id: string, f: seq<Member> -> seq<Member>)
    ensures Update(a + b, id, f) == Update(a, id, f) + Update(b, id, f)
    decreases a
  {
    if a == [] {
      assert a + b == b;
    } else {
      assert (a + b)[1..] == a[1..] + b;
      UpdateAppend(a[1..], b, id, f);
    }
  }

  lemma WithoutCons(m: Member, ms: seq<Member>, id: string)
    ensures Without([m] + ms, id) == (if m.id == id then [] else [WithoutInside(m, id)]) + Without(ms, id)
  {
    assert ([m] + ms)[1..] == ms;
  }

  lemma {:induction false} WithoutAppend(a: seq<Member>, b: seq<Member>, id: string)
    ensures Without(a + b, id) == Without(a, id) + Without(b, id)
    decreases |a|
  {
    if a == [] {
      assert a + b == b;
    } else {
      assert a + b == [a[0]] + (a[1..] + b) && a == [a[0]] + a[1..];
      WithoutCons(a[0], a[1..] + b, id);
      WithoutCons(a[0], a[1..], id);
      WithoutAppend(a[1..], b, id);
    }
  }

  lemma ListingOne(m: Member, c: Context)
    ensures Listing([m], c) == MemberListing(m, c)
  {
    assert [m][1..] == [];
  }

  lemma IdsOne(m: Member)
    ensures Ids([m]) == MemberIds(m)
  {
    assert [m][1..] == [];
  }

  /** The list around one of its members. */
  lemma Locate(ms: seq<Member>, m: Member) returns (a: seq<Member>, b: seq<Member>)
    requires m in ms
    ensures ms == a + ([m] + b)
  {
    var i :| 0 <= i < |ms| && ms[i] == m;
    a, b := ms[..i], ms[i + 1..];
  }

  lemma IdsAround(a: seq<Member>, m: Member, b: seq<Member>)
    ensures Ids(a + ([m] + b)) == Ids(a) + (MemberIds(m) + Ids(b))
  {
    IdsAppend(a, [m] + b);
    IdsAppend([m], b);
    IdsOne(m);
  }

  lemma ListingAround(a: seq<Member>, m: Member, b: seq<Member>, c: Context)
    ensures Listing(a + ([m] + b), c) == Listing(a, c) + (MemberListing(m, c) + Listing(b, c))
  {
    ListingAppend(a, [m] + b, c);
    ListingAppend([m], b, c);
    ListingOne(m, c);
  }

  function SeenId(s: Seen): string {
    s.id
  }

  lemma {:induction false} ListingIds(ms: seq<Member>, c: Context)
    ensures Map(Listing(ms, c), SeenId) == Ids(ms)
    decreases ms
  {
    if ms != [] {
      MemberListingIds(ms[0], c);
      ListingIds(ms[1..], c);
      MapAppend(MemberListing(ms[0], c), Listing(ms[1..], c), SeenId);
    }
  }

  lemma {:induction false} MemberListingIds(m: Member, c: Context)
    ensures Map(MemberListing(m, c), SeenId) == MemberIds(m)
    decreases m
  {
    if m.Folder? { ListingIds(m.members, EnterMember(c, m)); }
  }

  // ---- Unique ids ----

  lemma DistinctParts<T>(a: seq<T>, b: seq<T>, c: seq<T>)
    requires Distinct(a + (b + c))
    ensures Distinct(a) && Distinct(b) && Distinct(c)
    ensures forall x :: x in b ==> x !in a && x !in c
  {
    var all := a + (b + c);
    forall i | 0 <= i < |b| ensures all[|a| + i] == b[i] {}
    forall i | 0 <= i < |c| ensures all[|a| + |b| + i] == c[i] {}
    forall i | 0 <= i < |a| ensures all[i] == a[i] {}
  }

  lemma DistinctTail<T>(x: T, s: seq<T>)
    requires Distinct([x] + s)
    ensures Distinct(s) && x !in s
  {
    assert ([x] + s)[0] == x;
    assert forall i :: 0 <= i < |s| ==> s[i] == ([x] + s)[i + 1];
  }

  /** The ids below one member of a list occur nowhere else in the list. */
  lemma StandsAlone(ms: seq<Member>, m: Member) returns (a: seq<Member>, b: seq<Member>)
    requires m in ms && UniqueIds(ms)
    ensures ms == a + ([m] + b)
    ensures forall id :: id in MemberIds(m) ==> id !in Ids(a) && id !in Ids(b)
    ensures m.Folder? ==> UniqueIds(m.members) && m.id !in Ids(m.members)
    ensures UniqueIds(b)
  {
    a, b := Locate(ms, m);
    IdsAround(a, m, b);
    DistinctParts(Ids(a), MemberIds(m), Ids(b));
    if m.Folder? { DistinctTail(m.id, Ids(m.members)); }
  }

  lemma MemberIdsIn(ms: seq<Member>, m: Member)
    requires m in ms
    ensures forall id :: id in MemberIds(m) ==> id in Ids(ms)
  {
    var a, b := Locate(ms, m);
    IdsAround(a, m, b);
  }

  /** Two members of a list with a common id below them are the same member. */
  lemma SharedId(ms: seq<Member>, m: Member, n: Member, id: string)
    requires UniqueIds(ms) && m in ms && n in ms && id in MemberIds(m) && id in MemberIds(n)
    ensures m == n
  {
    var a, b := StandsAlone(ms, m);
    if n in a {
      MemberIdsIn(a, n);
    } else if n in b {
      MemberIdsIn(b, n);
    }
  }

  lemma {:induction false} UpdateAbsent(ms: seq<Member>, id: string, f: seq<Member> -> seq<Member>)
    requires id !in Ids(ms)
    ensures Update(ms, id, f) == ms
    decreases ms
  {
    if ms != [] {
      if ms[0].Folder? { UpdateAbsent(ms[0].members, id, f); }
      UpdateAbsent(ms[1..], id, f);
    }
  }

  lemma {:induction false} WithoutAbsent(ms: seq<Member>, id: string)
    requires id !in Ids(ms)
    ensures Without(ms, id) == ms
    decreases ms
  {
    if ms != [] {
      if ms[0].Folder? { WithoutAbsent(ms[0].members, id); }
      WithoutAbsent(ms[1..], id);
    }
  }

  // ---- Chains ----

  /** `folderPathTo` finds a chain to a folder with the id, or there is no such folder. */
  lemma {:induction false} FolderPathIsChain(ms: seq<Member>, id: string)
    ensures FolderPath(ms, id).Some? ==>
              var chain := FolderPath(ms, id).value;
              chain != [] && IsChain(ms, chain) && chain[|chain| - 1].id == id && chain[|chain| - 1].Folder?
    decreases ms
  {
    if ms != [] {
      if ms[0].Folder? {
        FolderPathIsChain(ms[0].members, id);
        var found := FolderPath(ms[0].members, id);
        if found.Some? {
          var chain := [ms[0]] + found.value;
          assert chain[1..] == found.value;
        }
      }
      FolderPathIsChain(ms[1..], id);
      if FolderPath(ms[1..], id).Some? { ChainInTail(ms, FolderPath(ms[1..], id).value); }
    }
  }

  lemma ChainInTail(ms: seq<Member>, chain: seq<Member>)
    requires ms != [] && IsChain(ms[1..], chain)
    ensures IsChain(ms, chain)
  {
  }

  lemma {:induction false} ChainIds(ms: seq<Member>, chain: seq<Member>)
    requires IsChain(ms, chain)
    ensures forall m :: m in chain ==> m.Folder? && m.id in Ids(ms)
    ensures chain != [] ==> forall m :: m in chain ==> m.id in MemberIds(chain[0])
    decreases |chain|
  {
    if chain != [] {
      ChainIds(chain[0].members, chain[1..]);
      MemberIdsIn(ms, chain[0]);
      forall m | m in chain ensures m.Folder? && m.id in MemberIds(chain[0]) {
        if m != chain[0] { assert m in chain[1..]; }
      }
    }
  }

  /** The last id of a chain is below its first folder, and is that folder's own id only when the chain ends there. */
  lemma LastBelowFirst(ms: seq<Member>, chain: seq<Member>)
    requires UniqueIds(ms) && IsChain(ms, chain) && chain != []
    ensures UniqueIds(chain[0].members) && chain[|chain| - 1].id in MemberIds(chain[0])
    ensures chain[|chain| - 1].id == chain[0].id <==> |chain| == 1
    ensures |chain| > 1 ==> Inside(chain[0].members, chain[1..]) == Inside(ms, chain)
                            && PlaceOf(chain[1..]) == PlaceOf(chain)
  {
    ChainIds(ms, chain);
    assert chain[|chain| - 1] in chain;
    var a, b := StandsAlone(ms, chain[0]);
    if |chain| > 1 {
      ChainIds(chain[0].members, chain[1..]);
      assert chain[|chain| - 1] in chain[1..];
    }
  }

  /** With unique ids, only one chain ends at an id. */
  lemma {:induction false} ChainUnique(ms: seq<Member>, p: seq<Member>, q: seq<Member>)
    requires UniqueIds(ms) && IsChain(ms, p) && IsChain(ms, q) && p != [] && q != []
    requires p[|p| - 1].id == q[|q| - 1].id
    ensures p == q
    decreases |p|
  {
    LastBelowFirst(ms, p);
    LastBelowFirst(ms, q);
    SharedId(ms, p[0], q[0], p[|p| - 1].id);
    if |p| > 1 {
      ChainUnique(p[0].members, p[1..], q[1..]);
      assert p == [p[0]] + p[1..] && q == [q[0]] + q[1..];
    }
  }

  /** Every folder of the tree is found. */
  lemma {:induction false} FolderPathFinds(ms: seq<Member>, chain: seq<Member>)
    requires IsChain(ms, chain) && chain != []
    ensures FolderPath(ms, chain[|chain| - 1].id).Some?
    decreases ms, |chain|
  {
    var id := chain[|chain| - 1].id;
    if chain[0] == ms[0] {
      if |chain| > 1 { FolderPathFinds(ms[0].members, chain[1..]); }
    } else {
      assert chain[0] in ms[1..];
      FolderPathFinds(ms[1..], chain);
    }
  }

  lemma FolderPathExact(ms: seq<Member>, chain: seq<Member>)
    requires UniqueIds(ms) && IsChain(ms, chain) && chain != []
    ensures FolderPath(ms, chain[|chain| - 1].id) == Some(chain)
  {
    var id := chain[|chain| - 1].id;
    FolderPathFinds(ms, chain);
    FolderPathIsChain(ms, id);
    ChainUnique(ms, chain, FolderPath(ms, id).value);
  }

  /** Chains to two containers share their first folders and nothing else. */
  function Shared(p: seq<Member>, q: seq<Member>): (n: nat)
    ensures n <= |p| && n <= |q| && p[..n] == q[..n]
  {
    if p == [] || q == [] || p[0] != q[0] then 0 else
      var n := Shared(p[1..], q[1..]);
      assert p[..n + 1] == [p[0]] + p[1..][..n] && q[..n + 1] == [q[0]] + q[1..][..n];
      n + 1
  }

  lemma {:induction false} ChainsPart(ms: seq<Member>, p: seq<Member>, q: seq<Member>)
    requires UniqueIds(ms) && IsChain(ms, p) && IsChain(ms, q)
    ensures var n := Shared(p, q);
            forall i, j :: n <= i < |p| && 0 <= j < |q| ==> p[i].id != q[j].id
    decreases |p|
  {
    if p == [] || q == [] {
    } else if p[0] == q[0] {
      var a, b := StandsAlone(ms, p[0]);
      ChainsPart(p[0].members, p[1..], q[1..]);
      ChainIds(p[0].members, p[1..]);
      var n := Shared(p, q);
      forall i, j | n <= i < |p| && 0 <= j < |q| ensures p[i].id != q[j].id {
        assert p[i] == p[1..][i - 1];
        if j > 0 { assert q[j] == q[1..][j - 1]; }
      }
    } else {
      ChainIds(ms, p);
      ChainIds(ms, q);
      forall i, j | 0 <= i < |p| && 0 <= j < |q| ensures p[i].id != q[j].id {
        assert p[i] in p && q[j] in q;
        if p[i].id == q[j].id { SharedId(ms, p[0], q[0], p[i].id); }
      }
    }
  }

  lemma {:induction false} EnterAllAppend(c: Context, p: seq<Member>, q: seq<Member>)
    ensures EnterAll(c, p + q) == EnterAll(EnterAll(c, p), q)
    decreases |p|
  {
    if p == [] {
      assert p + q == q;
    } else {
      assert (p + q)[1..] == p[1..] + q;
      EnterAllAppend(EnterMember(c, p[0]), p[1..], q);
    }
  }

  /** `findContainerOf` finds the chain to the container that directly holds the member. */
  lemma {:induction false} ContainerHolds(here: Place, ms: seq<Member>, id: string) returns (chain: seq<Member>, m: Member)
    requires FindContainer(here, ms, id).Some?
    ensures IsChain(ms, chain) && m in Inside(ms, chain) && m.id == id
    ensures FindContainer(here, ms, id).value == if chain == [] then here else PlaceOf(chain)
    decreases ms
  {
    if ms[0].id == id {
      chain, m := [], ms[0];
    } else if ms[0].Folder? && FindContainer(Some(ms[0].id), ms[0].members, id).Some? {
      var below;
      below, m := ContainerHolds(Some(ms[0].id), ms[0].members, id);
      chain := [ms[0]] + below;
      assert chain[1..] == below;
    } else {
      chain, m := ContainerHolds(here, ms[1..], id);
      ChainInTail(ms, chain);
    }
  }

  lemma {:induction false} ContainerFound(here: Place, ms: seq<Member>, id: string)
    ensures FindContainer(here, ms, id).Some? <==> id in Ids(ms)
    decreases ms
  {
    if ms != [] {
      if ms[0].Folder? { ContainerFound(Some(ms[0].id), ms[0].members, id); }
      ContainerFound(here, ms[1..], id);
    }
  }

  // ---- What an edit of one container changes ----

  lemma UpdateOnly(a: seq<Member>, m: Member, b: seq<Member>, id: string, f: seq<Member> -> seq<Member>)
    requires id !in Ids(a) && id !in Ids(b)
    ensures Update(a + ([m] + b), id, f) == a + ([UpdateMember(m, id, f)] + b)
  {
    UpdateAppend(a, [m] + b, id, f);
    UpdateAppend([m], b, id, f);
    UpdateAbsent(a, id, f);
    UpdateAbsent(b, id, f);
    assert [m][1..] == [];
  }

  /** An edit of one container changes one member of the root, and inside it only what the rest of the chain leads to. */
  lemma EditedBranch(ms: seq<Member>, chain: seq<Member>, f: seq<Member> -> seq<Member>)
    returns (a: seq<Member>, b: seq<Member>, edited: seq<Member>)
    requires UniqueIds(ms) && IsChain(ms, chain) && chain != []
    ensures ms == a + ([chain[0]] + b)
    ensures edited == UpdateAt(chain[0].members, PlaceOf(chain[1..]), f)
    ensures UpdateAt(ms, PlaceOf(chain), f) == a + ([chain[0].(members := edited)] + b)
    ensures UniqueIds(chain[0].members) && Inside(chain[0].members, chain[1..]) == Inside(ms, chain)
    ensures forall id :: id in MemberIds(chain[0]) ==> id !in Ids(a) && id !in Ids(b)
    ensures chain[0].id !in Ids(chain[0].members)
  {
    LastBelowFirst(ms, chain);
    a, b := StandsAlone(ms, chain[0]);
    var id := chain[|chain| - 1].id;
    UpdateOnly(a, chain[0], b, id, f);
    edited := UpdateAt(chain[0].members, PlaceOf(chain[1..]), f);
  }

  /** After an edit of one container a chain still leads to it, and its members are the edited ones. */
  lemma {:induction false} EditedInside(ms: seq<Member>, chain: seq<Member>, f: seq<Member> -> seq<Member>) returns (edited: seq<Member>)
    requires UniqueIds(ms) && IsChain(ms, chain)
    ensures var after := UpdateAt(ms, PlaceOf(chain), f);
            IsChain(after, edited) && PlaceOf(edited) == PlaceOf(chain) && Inside(after, edited) == f(Inside(ms, chain))
    decreases |chain|
  {
    if chain == [] {
      edited := [];
    } else {
      var a, b, members := EditedBranch(ms, chain, f);
      var below := EditedInside(chain[0].members, chain[1..], f);
      edited := [chain[0].(members := members)] + below;
      assert edited[1..] == below;
    }
  }

  lemma MembersAtChain(ms: seq<Member>, chain: seq<Member>)
    requires UniqueIds(ms) && IsChain(ms, chain)
    ensures MembersAt(ms, PlaceOf(chain)) == Inside(ms, chain)
  {
    if chain != [] { FolderPathExact(ms, chain); }
  }

  /** An edit of one container changes what is seen by exactly what it changes inside that container. */
  lemma {:induction false} EditListing(
    ms: seq<Member>, chain: seq<Member>, f: seq<Member> -> seq<Member>, c: Context, gone: multiset<Seen>, came: multiset<Seen>)
    requires UniqueIds(ms) && IsChain(ms, chain)
    requires Balance(f(Inside(ms, chain)), Inside(ms, chain), EnterAll(c, chain), gone, came)
    ensures Balance(UpdateAt(ms, PlaceOf(chain), f), ms, c, gone, came)
    decreases |chain|
  {
    if chain != [] {
      var a, b, edited := EditedBranch(ms, chain, f);
      EditListing(chain[0].members, chain[1..], f, EnterMember(c, chain[0]), gone, came);
      BalanceAround(a, chain[0], edited, b, c, gone, came);
    }
  }

  /** What is seen of `after` is what is seen of `before`, less `gone`, plus `came`. */
  ghost predicate Balance(after: seq<Member>, before: seq<Member>, c: Context, gone: multiset<Seen>, came: multiset<Seen>) {
    multiset(Listing(after, c)) + gone == multiset(Listing(before, c)) + came
  }

  lemma BalanceAround(
    a: seq<Member>, m: Member, edited: seq<Member>, b: seq<Member>, c: Context, gone: multiset<Seen>, came: multiset<Seen>)
    requires m.Folder? && Balance(edited, m.members, EnterMember(c, m), gone, came)
    ensures Balance(a + ([m.(members := edited)] + b), a + ([m] + b), c, gone, came)
  {
    var n := m.(members := edited);
    ListingAround(a, m, b, c);
    ListingAround(a, n, b, c);
    var inner := EnterMember(c, m);
    var holder := [Holder(m.id, m.name)];
    assert MemberListing(m, c) == holder + Listing(m.members, inner);
    assert MemberListing(n, c) == holder + Listing(edited, inner);
    SumsBalance(multiset(Listing(a, c)), multiset(holder), multiset(Listing(m.members, inner)),
                multiset(Listing(edited, inner)), multiset(Listing(b, c)), gone, came);
  }

  lemma SumsBalance<T>(a: multiset<T>, h: multiset<T>, x: multiset<T>, y: multiset<T>, b: multiset<T>, gone: multiset<T>, came: multiset<T>)
    requires y + gone == x + came
    ensures (a + ((h + y) + b)) + gone == (a + ((h + x) + b)) + came
  {
    assert (a + ((h + y) + b)) + gone == (a + h + b) + (y + gone);
    assert (a + ((h + x) + b)) + came == (a + h + b) + (x + came);
  }

  // ---- Removing a member ----

  lemma IdsCons(m: Member, ms: seq<Member>)
    ensures Ids([m] + ms) == MemberIds(m) + Ids(ms)
  {
    assert ([m] + ms)[1..] == ms;
  }

  lemma {:induction false} WithoutLacks(ms: seq<Member>, id: string)
    ensures id !in Ids(Without(ms, id))
    decreases ms
  {
    if ms != [] {
      WithoutLacks(ms[1..], id);
      if ms[0].id == id {
        assert [] + Without(ms[1..], id) == Without(ms[1..], id);
      } else {
        if ms[0].Folder? { WithoutLacks(ms[0].members, id); }
        IdsCons(WithoutInside(ms[0], id), Without(ms[1..], id));
      }
    }
  }

  lemma CountAppend<T>(a: seq<T>, b: seq<T>, x: T)
    ensures multiset(a + b)[x] == multiset(a)[x] + multiset(b)[x]
  {
  }

  lemma {:induction false} WithoutCount(ms: seq<Member>, id: string, x: string)
    ensures multiset(Ids(Without(ms, id)))[x] <= multiset(Ids(ms))[x]
    decreases ms, 1
  {
    if ms != [] {
      WithoutCount(ms[1..], id, x);
      CountAppend(MemberIds(ms[0]), Ids(ms[1..]), x);
      if ms[0].id == id {
        assert [] + Without(ms[1..], id) == Without(ms[1..], id);
      } else {
        var m := WithoutInside(ms[0], id);
        IdsCons(m, Without(ms[1..], id));
        CountAppend(MemberIds(m), Ids(Without(ms[1..], id)), x);
        WithoutCountInside(ms[0], id, x);
      }
    }
  }

  lemma {:induction false} WithoutCountInside(m: Member, id: string, x: string)
    ensures multiset(MemberIds(WithoutInside(m, id)))[x] <= multiset(MemberIds(m))[x]
    decreases m, 2
  {
    if m.Folder? {
      WithoutCount(m.members, id, x);
      CountAppend([m.id], Ids(m.members), x);
      CountAppend([m.id], Ids(Without(m.members, id)), x);
    }
  }

  lemma WithoutUnique(ms: seq<Member>, id: string)
    requires UniqueIds(ms)
    ensures UniqueIds(Without(ms, id)) && id !in Ids(Without(ms, id))
  {
    WithoutLacks(ms, id);
    DistinctMultiset(Ids(ms));
    DistinctMultiset(Ids(Without(ms, id)));
    forall x | x in Ids(Without(ms, id)) ensures multiset(Ids(Without(ms, id)))[x] == 1 {
      WithoutCount(ms, id, x);
      assert multiset(Ids(ms))[x] >= 1;
      assert x in Ids(ms);
    }
  }

  lemma WithoutOne(a: seq<Member>, m: Member, b: seq<Member>, id: string)
    requires id !in Ids(a) && id !in Ids(b)
    ensures Without(a + ([m] + b), id) == a + ((if m.id == id then [] else [WithoutInside(m, id)]) + b)
  {
    WithoutAppend(a, [m] + b, id);
    WithoutAppend([m], b, id);
    WithoutAbsent(a, id);
    WithoutAbsent(b, id);
    assert [m][1..] == [];
  }

  /** Filtering the list that directly holds the member leaves its neighbours. */
  lemma FilterRemovesOne(ms: seq<Member>, m: Member) returns (a: seq<Member>, b: seq<Member>)
    requires m in ms && UniqueIds(ms)
    ensures ms == a + ([m] + b) && RemoveDirect(m.id)(ms) == a + b == Without(ms, m.id)
  {
    a, b := StandsAlone(ms, m);
    assert m.id in MemberIds(m);
    WithoutOne(a, m, b, m.id);
    OthersKept(a, m.id);
    OthersKept(b, m.id);
    FilterAppend(a, [m] + b, HasOtherId(m.id));
    FilterAppend([m], b, HasOtherId(m.id));
    assert [m][1..] == [];
    assert [] + b == b;
  }

  lemma OthersKept(ms: seq<Member>, id: string)
    requires id !in Ids(ms)
    ensures Filter(ms, HasOtherId(id)) == ms
  {
    forall m | m in ms ensures m.id != id { MemberIdsIn(ms, m); assert m.id in MemberIds(m); }
    FilterAll(ms, HasOtherId(id));
  }

  /** Removing the member from the container that holds it removes it from the tree. */
  lemma {:induction false} RemoveIsWithout(ms: seq<Member>, chain: seq<Member>, m: Member)
    requires UniqueIds(ms) && IsChain(ms, chain) && m in Inside(ms, chain)
    ensures UpdateAt(ms, PlaceOf(chain), RemoveDirect(m.id)) == Without(ms, m.id)
    decreases |chain|
  {
    if chain == [] {
      var a, b := FilterRemovesOne(ms, m);
    } else {
      var a, b, edited := EditedBranch(ms, chain, RemoveDirect(m.id));
      RemoveIsWithout(chain[0].members, chain[1..], m);
      HeldBelow(ms, chain, m);
      assert m.id in MemberIds(m);
      WithoutOne(a, chain[0], b, m.id);
    }
  }

  lemma {:induction false} HeldBelow(ms: seq<Member>, chain: seq<Member>, m: Member)
    requires IsChain(ms, chain) && m in Inside(ms, chain)
    ensures forall id :: id in MemberIds(m) ==> id in Ids(ms)
    ensures chain != [] ==> forall id :: id in MemberIds(m) ==> id in Ids(chain[0].members)
    decreases |chain|
  {
    if chain == [] {
      MemberIdsIn(ms, m);
    } else {
      assert |chain| > 1 ==> Inside(chain[0].members, chain[1..]) == Inside(ms, chain);
      HeldBelow(chain[0].members, chain[1..], m);
      MemberIdsIn(ms, chain[0]);
    }
  }

  /** Removing a member takes away exactly what is seen of it. */
  lemma RemoveListing(ms: seq<Member>, chain: seq<Member>, m: Member, c: Context)
    requires UniqueIds(ms) && IsChain(ms, chain) && m in Inside(ms, chain)
    ensures multiset(Listing(ms, c)) == multiset(Listing(Without(ms, m.id), c)) + multiset(MemberListing(m, EnterAll(c, chain)))
  {
    var below := EnterAll(c, chain);
    InsideUnique(ms, chain);
    RemoveInside(Inside(ms, chain), m, below);
    RemoveIsWithout(ms, chain, m);
    EditListing(ms, chain, RemoveDirect(m.id), c, multiset(MemberListing(m, below)), multiset{});
  }

  lemma RemoveInside(inside: seq<Member>, m: Member, c: Context)
    requires UniqueIds(inside) && m in inside
    ensures Balance(RemoveDirect(m.id)(inside), inside, c, multiset(MemberListing(m, c)), multiset{})
  {
    var a, b := FilterRemovesOne(inside, m);
    ListingAround(a, m, b, c);
    ListingAppend(a, b, c);
  }

  lemma {:induction false} InsideUnique(ms: seq<Member>, chain: seq<Member>)
    requires UniqueIds(ms) && IsChain(ms, chain)
    ensures UniqueIds(Inside(ms, chain))
    decreases |chain|
  {
    if chain != [] {
      var a, b := StandsAlone(ms, chain[0]);
      assert |chain| > 1 ==> Inside(chain[0].members, chain[1..]) == Inside(ms, chain);
      InsideUnique(chain[0].members, chain[1..]);
    }
  }

  function ChainWithout(chain: seq<Member>, id: string): seq<Member> {
    if chain == [] then [] else [WithoutInside(chain[0], id)] + ChainWithout(chain[1..], id)
  }

  /** A chain that does not pass through the removed member is still there, and leads to the same context. */
  lemma {:induction false} ChainSurvives(ms: seq<Member>, chain: seq<Member>, id: string, c: Context)
    requires IsChain(ms, chain) && forall m :: m in chain ==> m.id != id
    ensures var kept := ChainWithout(chain, id);
            && |kept| == |chain| && IsChain(Without(ms, id), kept) && EnterAll(c, kept) == EnterAll(c, chain)
            && PlaceOf(kept) == PlaceOf(chain) && Inside(Without(ms, id), kept) == Without(Inside(ms, chain), id)
    decreases |chain|
  {
    if chain != [] {
      assert chain[0] in chain;
      assert WithoutInside(chain[0], id) in Without(ms, id) by { WithoutKeeps(ms, chain[0], id); }
      ChainSurvives(chain[0].members, chain[1..], id, EnterMember(c, chain[0]));
      var kept := ChainWithout(chain, id);
      assert kept[1..] == ChainWithout(chain[1..], id);
      assert |chain| > 1 ==> Inside(chain[0].members, chain[1..]) == Inside(ms, chain);
    }
  }

  lemma {:induction false} WithoutKeeps(ms: seq<Member>, m: Member, id: string)
    requires m in ms && m.id != id
    ensures WithoutInside(m, id) in Without(ms, id)
    decreases |ms|
  {
    if ms[0] != m { WithoutKeeps(ms[1..], m, id); }
  }

  // ---- Inserting a member ----

  function InsertDirect(k: nat, m: Member): seq<Member> -> seq<Member> {
    (ms: seq<Member>) => if k <= |ms| then ms[..k] + ([m] + ms[k..]) else ms
  }

  /** Inserting a member adds exactly what is seen of it there. */
  lemma InsertListing(ms: seq<Member>, chain: seq<Member>, k: nat, m: Member, c: Context)
    requires UniqueIds(ms) && IsChain(ms, chain) && k <= |Inside(ms, chain)|
    ensures multiset(Listing(UpdateAt(ms, PlaceOf(chain), InsertDirect(k, m)), c))
         == multiset(Listing(ms, c)) + multiset(MemberListing(m, EnterAll(c, chain)))
  {
    var below := EnterAll(c, chain);
    InsertInside(Inside(ms, chain), k, m, below);
    EditListing(ms, chain, InsertDirect(k, m), c, multiset{}, multiset(MemberListing(m, below)));
  }

  lemma InsertInside(inside: seq<Member>, k: nat, m: Member, c: Context)
    requires k <= |inside|
    ensures Balance(InsertDirect(k, m)(inside), inside, c, multiset{}, multiset(MemberListing(m, c)))
  {
    assert inside == inside[..k] + inside[k..];
    ListingAppend(inside[..k], inside[k..], c);
    ListingAround(inside[..k], m, inside[k..], c);
  }

  /** Taking an inserted member out again gives back the tree it was inserted into. */
  lemma {:induction false} InsertThenWithout(ms: seq<Member>, chain: seq<Member>, k: nat, m: Member)
    requires UniqueIds(ms) && IsChain(ms, chain) && k <= |Inside(ms, chain)| && m.id !in Ids(ms)
    ensures Without(UpdateAt(ms, PlaceOf(chain), InsertDirect(k, m)), m.id) == ms
    decreases |chain|
  {
    if chain == [] {
      assert ms == ms[..k] + ms[k..];
      IdsAppend(ms[..k], ms[k..]);
      WithoutOne(ms[..k], m, ms[k..], m.id);
      assert [] + ms[k..] == ms[k..];
    } else {
      var a, b, edited := EditedBranch(ms, chain, InsertDirect(k, m));
      IdsAround(a, chain[0], b);
      assert m.id !in Ids(chain[0].members) && m.id != chain[0].id;
      InsertThenWithout(chain[0].members, chain[1..], k, m);
      WithoutOne(a, chain[0].(members := edited), b, m.id);
    }
  }
}
