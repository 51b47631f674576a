/**
 * Moving, deleting and reordering members of an uploaded collection
 * (backend/src/externalCollections/collectionStructure.ts).
 */
module CollectionStructure {
  import opened CollectionTree
  import opened CopiedScripts
  import opened Sequences

  datatype Error = ItemNotFound(id: string) | AlreadyThere | IntoItself | InvalidOrder

  datatype Result<T> = Done(value: T) | Failed(error: Error)

  /** The container that provides an inherited auth. */
  datatype Source = FromCollection | FromFolder(id: string, name: string)

  datatype Inherited = Inherited(auth: Auth, source: Source)

  datatype CarriedAuth = CarriedAuth(kind: string, fromFolderName: Option<string>)

  datatype FolderScripts = FolderScripts(id: string, name: string, events: seq<string>)

  /** What `moveItem` reports. */
  datatype MoveCarried = MoveCarried(auth: Option<CarriedAuth>, scriptsFromFolders: seq<FolderScripts>)

  const NOAUTH := Auth("noauth", "", true)

  const NOTHING := Context(None, [], [])

  // ---- What moving carries ----

  /** `inheritedAuth`: the nearest usable auth from the innermost folder outwards, then the collection's. */
  function InheritedAuth(collectionAuth: Option<Auth>, chain: seq<Member>): Option<Inherited> {
    if chain == [] then
      if Usable(collectionAuth).Some? then Some(Inherited(collectionAuth.value, FromCollection)) else None
    else
      var last := chain[|chain| - 1];
      if Usable(last.auth).Some? then Some(Inherited(last.auth.value, FromFolder(last.id, last.name)))
      else InheritedAuth(collectionAuth, chain[..|chain| - 1])
  }

  method FindInheritedAuth(collectionAuth: Option<Auth>, chain: seq<Member>) returns (found: Option<Inherited>)
    ensures found == InheritedAuth(collectionAuth, chain)
  {
    var i := |chain|;
    assert chain[..i] == chain;
    while i > 0
      invariant 0 <= i <= |chain|
      invariant InheritedAuth(collectionAuth, chain) == InheritedAuth(collectionAuth, chain[..i])
    {
      i := i - 1;
      assert chain[..i + 1][..i] == chain[..i];
      if Usable(chain[i].auth).Some? {
        return Some(Inherited(chain[i].auth.value, FromFolder(chain[i].id, chain[i].name)));
      }
    }
    return if Usable(collectionAuth).Some? then Some(Inherited(collectionAuth.value, FromCollection)) else None;
  }

  function SourceOf(inherited: Option<Inherited>): Option<Source> {
    if inherited.Some? then Some(inherited.value.source) else None
  }

  function AuthOf(inherited: Option<Inherited>): Option<Auth> {
    if inherited.Some? then Some(inherited.value.auth) else None
  }

  predicate AuthChanges(m: Member, before: Option<Inherited>, after: Option<Inherited>) {
    Usable(m.auth).None? && SourceOf(before) != SourceOf(after)
  }

  /** The auth the moved member ends up with: its own, or what it inherited where the move would change that. */
  function AuthAfterMove(m: Member, before: Option<Inherited>, after: Option<Inherited>): Option<Auth> {
    if AuthChanges(m, before, after) then Some(if before.Some? then before.value.auth else NOAUTH) else m.auth
  }

  function ReportedAuth(m: Member, before: Option<Inherited>, after: Option<Inherited>): Option<CarriedAuth> {
    if !AuthChanges(m, before, after) then None
    else if before.None? then Some(CarriedAuth("noauth", None))
    else Some(CarriedAuth(before.value.auth.kind,
                          if before.value.source.FromFolder? then Some(before.value.source.name) else None))
  }

  function MemberId(m: Member): string {
    m.id
  }

  function NotAmong(target: seq<Member>): Member -> bool {
    (m: Member) => m.id !in Map(target, MemberId)
  }

  /** The former ancestors that are not ancestors of the target. */
  function LeftFolders(current: seq<Member>, target: seq<Member>): seq<Member> {
    Filter(current, NotAmong(target))
  }

  function CopiesOf(folder: Member, listen: string): seq<Event> {
    Map(Scripts(folder.events, listen), CopyEvent(folder, listen))
  }

  function CopiesFrom(folder: Member): seq<Event> {
    CopiesOf(folder, "prerequest") + CopiesOf(folder, "test")
  }

  /** One copy for every script of the folders, outermost folder first, pre-request scripts before test scripts. */
  function CopiedEvents(folders: seq<Member>): seq<Event> {
    if folders == [] then [] else CopiesFrom(folders[0]) + CopiedEvents(folders[1..])
  }

  function KindsOf(folder: Member): seq<string> {
    (if Scripts(folder.events, "prerequest") != [] then ["prerequest"] else [])
    + (if Scripts(folder.events, "test") != [] then ["test"] else [])
  }

  function ReportOf(folder: Member): seq<FolderScripts> {
    if KindsOf(folder) == [] then [] else [FolderScripts(folder.id, folder.name, KindsOf(folder))]
  }

  function ScriptsReport(folders: seq<Member>): seq<FolderScripts> {
    if folders == [] then [] else ReportOf(folders[0]) + ScriptsReport(folders[1..])
  }

  lemma {:induction false} CopiedEventsPush(folders: seq<Member>, folder: Member)
    ensures CopiedEvents(folders + [folder]) == CopiedEvents(folders) + CopiesFrom(folder)
  {
    if folders == [] {
      assert (folders + [folder])[1..] == [];
    } else {
      assert (folders + [folder])[1..] == folders[1..] + [folder];
      CopiedEventsPush(folders[1..], folder);
    }
  }

  lemma {:induction false} ScriptsReportPush(folders: seq<Member>, folder: Member)
    ensures ScriptsReport(folders + [folder]) == ScriptsReport(folders) + ReportOf(folder)
  {
    if folders == [] {
      assert (folders + [folder])[1..] == [];
    } else {
      assert (folders + [folder])[1..] == folders[1..] + [folder];
      ScriptsReportPush(folders[1..], folder);
      assert ScriptsReport(folders + [folder]) == ReportOf(folders[0]) + (ScriptsReport(folders[1..]) + ReportOf(folder));
    }
  }

  lemma {:induction false} ScriptsAppend(a: seq<Event>, b: seq<Event>, listen: string)
    ensures Scripts(a + b, listen) == Scripts(a, listen) + Scripts(b, listen)
  {
    if a == [] {
      assert a + b == b;
    } else {
      assert (a + b)[1..] == a[1..] + b;
      ScriptsAppend(a[1..], b, listen);
    }
  }

  lemma ScriptsPush(events: seq<Event>, i: nat, listen: string)
    requires i < |events|
    ensures Scripts(events[..i + 1], listen)
         == Scripts(events[..i], listen) + (if HasScript(events[i], listen) then [events[i].source.value] else [])
  {
    assert events[..i + 1] == events[..i] + [events[i]];
    ScriptsAppend(events[..i], [events[i]], listen);
    assert [events[i]][1..] == [];
  }

  function CopyEvent(folder: Member, listen: string): string -> Event {
    (source: string) => Event(listen, Some(CopyText(folder, source)))
  }

  lemma CopiesPush(events: seq<Event>, i: nat, listen: string, copy: string -> Event)
    requires i < |events|
    ensures Map(Scripts(events[..i + 1], listen), copy)
         == Map(Scripts(events[..i], listen), copy) + (if HasScript(events[i], listen) then [copy(events[i].source.value)] else [])
  {
    ScriptsPush(events, i, listen);
    if HasScript(events[i], listen) {
      MapAppend(Scripts(events[..i], listen), [events[i].source.value], copy);
    }
  }

  /** The innermost loop: the copies of one folder's scripts of one kind. */
  method CopyKind(folder: Member, listen: string) returns (copied: seq<Event>)
    ensures copied == CopiesOf(folder, listen)
  {
    copied := [];
    for i := 0 to |folder.events|
      invariant copied == Map(Scripts(folder.events[..i], listen), CopyEvent(folder, listen))
    {
      var event := folder.events[i];
      CopiesPush(folder.events, i, listen, CopyEvent(folder, listen));
      if event.listen == listen && event.source.Some? && !IsBlank(event.source.value) {
        copied := copied + [Event(listen, Some(CopyText(folder, event.source.value)))];
      }
    }
    assert folder.events[..|folder.events|] == folder.events;
  }

  /** The body of the loop over folders. */
  method CopyFolder(folder: Member) returns (copied: seq<Event>, report: seq<FolderScripts>)
    ensures copied == CopiesFrom(folder) && report == ReportOf(folder)
  {
    var events := [];
    copied := CopyKind(folder, "prerequest");
    if copied != [] {
      events := events + ["prerequest"];
    }
    var tests := CopyKind(folder, "test");
    if tests != [] {
      events := events + ["test"];
    }
    assert events == KindsOf(folder);
    copied := copied + tests;
    report := if |events| > 0 then [FolderScripts(folder.id, folder.name, events)] else [];
  }

  lemma CopyPush(folders: seq<Member>, i: nat)
    requires i < |folders|
    ensures CopiedEvents(folders[..i + 1]) == CopiedEvents(folders[..i]) + CopiesFrom(folders[i])
    ensures ScriptsReport(folders[..i + 1]) == ScriptsReport(folders[..i]) + ReportOf(folders[i])
  {
    assert folders[..i + 1] == folders[..i] + [folders[i]];
    CopiedEventsPush(folders[..i], folders[i]);
    ScriptsReportPush(folders[..i], folders[i]);
  }

  method CopyScripts(leftFolders: seq<Member>) returns (copied: seq<Event>, scriptsFromFolders: seq<FolderScripts>)
    ensures copied == CopiedEvents(leftFolders) && scriptsFromFolders == ScriptsReport(leftFolders)
  {
    copied, scriptsFromFolders := [], [];
    for i := 0 to |leftFolders|
      invariant copied == CopiedEvents(leftFolders[..i]) && scriptsFromFolders == ScriptsReport(leftFolders[..i])
    {
      CopyPush(leftFolders, i);
      var copies, report := CopyFolder(leftFolders[i]);
      copied := copied + copies;
      scriptsFromFolders := scriptsFromFolders + report;
    }
    assert leftFolders[..|leftFolders|] == leftFolders;
  }

  /** The moved member as it is put into its new container. */
  function CarriedMember(collectionAuth: Option<Auth>, m: Member, current: seq<Member>, target: seq<Member>): Member {
    m.(auth := AuthAfterMove(m, InheritedAuth(collectionAuth, current), InheritedAuth(collectionAuth, target)),
       events := CopiedEvents(LeftFolders(current, target)) + m.events)
  }

  function Report(collectionAuth: Option<Auth>, m: Member, current: seq<Member>, target: seq<Member>): MoveCarried {
    MoveCarried(ReportedAuth(m, InheritedAuth(collectionAuth, current), InheritedAuth(collectionAuth, target)),
                ScriptsReport(LeftFolders(current, target)))
  }

  /** What `moveItem` writes onto the member, and what it reports. */
  method Carry(collectionAuth: Option<Auth>, member: Member, currentChain: seq<Member>, targetChain: seq<Member>)
    returns (moved: Member, carried: MoveCarried)
    ensures moved == CarriedMember(collectionAuth, member, currentChain, targetChain)
    ensures carried == Report(collectionAuth, member, currentChain, targetChain)
  {
    var leftFolders := Filter(currentChain, NotAmong(targetChain));
    var carriedAuth := None;
    moved := member;
    if Usable(member.auth).None? {
      var before := FindInheritedAuth(collectionAuth, currentChain);
      var after := FindInheritedAuth(collectionAuth, targetChain);
      if SourceOf(before) != SourceOf(after) {
        moved := moved.(auth := Some(if before.Some? then before.value.auth else NOAUTH));
        carriedAuth := Some(CarriedAuth(
          if before.Some? then before.value.auth.kind else "noauth",
          if before.Some? && before.value.source.FromFolder? then Some(before.value.source.name) else None));
      }
    }
    var copiedEvents, scriptsFromFolders := CopyScripts(leftFolders);
    assert [] + member.events == member.events;
    if |copiedEvents| > 0 {
      moved := moved.(events := copiedEvents + moved.events);
    }
    carried := MoveCarried(carriedAuth, scriptsFromFolders);
  }

  /** The position after the last folder of a list. */
  function AfterLastFolder(ms: seq<Member>): (k: nat)
    ensures k <= |ms|
    ensures forall i :: k <= i < |ms| ==> ms[i].Item?
    ensures k > 0 ==> ms[k - 1].Folder?
  {
    if ms == [] then 0
    else if ms[|ms| - 1].Folder? then |ms|
    else AfterLastFolder(ms[..|ms| - 1])
  }

  /** A folder lands after the last folder, a request after everything. */
  function LandsAt(m: Member, ms: seq<Member>): (k: nat)
    ensures k <= |ms|
  {
    if m.Folder? then AfterLastFolder(ms) else |ms|
  }

  function PlaceLast(m: Member): seq<Member> -> seq<Member> {
    (ms: seq<Member>) => InsertDirect(LandsAt(m, ms), m)(ms)
  }

  function Relocated(items: seq<Member>, id: string, place: Place, m: Member): seq<Member> {
    UpdateAt(Without(items, id), place, PlaceLast(m))
  }

  // ---- When a move is refused ----

  function TargetChain(items: seq<Member>, targetId: string): Option<seq<Member>> {
    if targetId == "root" then Some([]) else FolderPath(items, targetId)
  }

  function MoveError(items: seq<Member>, itemId: string, targetId: string): Option<Error> {
    if itemId !in Ids(items) then Some(ItemNotFound(itemId))
    else
      var target := TargetChain(items, targetId);
      if target.None? then Some(ItemNotFound(targetId))
      else if itemId in Map(Inside(items, target.value), MemberId) then Some(AlreadyThere)
      else if itemId in Map(target.value, MemberId) then Some(IntoItself)
      else None
  }

  /** With unique ids, an id lives in one container only, as one member. */
  lemma {:induction false} HolderUnique(ms: seq<Member>, p: seq<Member>, q: seq<Member>, m: Member, n: Member)
    requires UniqueIds(ms) && IsChain(ms, p) && IsChain(ms, q)
    requires m in Inside(ms, p) && n in Inside(ms, q) && m.id == n.id
    ensures p == q && m == n
    decreases |p|
  {
    HeldBelow(ms, p, m);
    HeldBelow(ms, q, n);
    assert m.id in MemberIds(m) && n.id in MemberIds(n);
    var first, second := if p == [] then m else p[0], if q == [] then n else q[0];
    SharedId(ms, first, second, m.id);
    var a, b := StandsAlone(ms, first);
    if p != [] && q != [] {
      assert |p| > 1 ==> Inside(p[0].members, p[1..]) == Inside(ms, p);
      assert |q| > 1 ==> Inside(q[0].members, q[1..]) == Inside(ms, q);
      HolderUnique(p[0].members, p[1..], q[1..], m, n);
      assert p == [p[0]] + p[1..] && q == [q[0]] + q[1..];
    }
  }

  lemma MapHas(ms: seq<Member>, id: string)
    ensures id in Map(ms, MemberId) <==> exists m :: m in ms && m.id == id
  {
    if m :| m in ms && m.id == id {
      var i :| 0 <= i < |ms| && ms[i] == m;
      assert Map(ms, MemberId)[i] == id;
    }
    if id in Map(ms, MemberId) {
      var i :| 0 <= i < |ms| && Map(ms, MemberId)[i] == id;
      assert ms[i] in ms;
    }
  }

  /** A folder of a chain is held by the chain up to it. */
  lemma {:induction false} ChainHolds(ms: seq<Member>, chain: seq<Member>, i: nat)
    requires IsChain(ms, chain) && i < |chain|
    ensures IsChain(ms, chain[..i]) && chain[i] in Inside(ms, chain[..i])
    decreases |chain|
  {
    if i > 0 {
      ChainHolds(chain[0].members, chain[1..], i - 1);
      assert chain[..i][1..] == chain[1..][..i - 1];
      assert i > 1 ==> chain[..i][i - 1] == chain[1..][..i - 1][i - 2];
    }
  }

  /** The code compares containers and looks for the member among the target's folders; these tests are about the ids alone. */
  lemma RefusalTests(items: seq<Member>, current: seq<Member>, target: seq<Member>, m: Member)
    requires UniqueIds(items) && IsChain(items, current) && IsChain(items, target) && m in Inside(items, current)
    ensures PlaceOf(current) == PlaceOf(target) <==> m.id in Map(Inside(items, target), MemberId)
    ensures m.id in Map(target, MemberId) ==> m.Folder?
  {
    MapHas(Inside(items, target), m.id);
    MapHas(target, m.id);
    if PlaceOf(current) == PlaceOf(target) && current != [] { ChainUnique(items, current, target); }
    if n :| n in Inside(items, target) && n.id == m.id { HolderUnique(items, current, target, m, n); }
    if n :| n in target && n.id == m.id {
      var i :| 0 <= i < |target| && target[i] == n;
      ChainHolds(items, target, i);
      ChainIds(items, target);
      HolderUnique(items, current, target[..i], m, n);
    }
  }

  // ---- The collection ----

  function FindDirect(ms: seq<Member>, id: string): Option<Member> {
    if ms == [] then None else if ms[0].id == id then Some(ms[0]) else FindDirect(ms[1..], id)
  }

  lemma {:induction false} FindDirectExact(ms: seq<Member>, m: Member)
    requires UniqueIds(ms) && m in ms
    ensures FindDirect(ms, m.id) == Some(m)
  {
    assert m.id in MemberIds(m);
    if ms[0].id == m.id {
      assert m.id in MemberIds(ms[0]);
      SharedId(ms, ms[0], m, m.id);
    } else {
      assert [] + (MemberIds(ms[0]) + Ids(ms[1..])) == Ids(ms);
      DistinctParts([], MemberIds(ms[0]), Ids(ms[1..]));
      FindDirectExact(ms[1..], m);
    }
  }

  // ---- Reordering ----

  function ReplaceBy(reordered: seq<Member>): seq<Member> -> seq<Member> {
    (ms: seq<Member>) => reordered
  }

  /** The test `reorderContainer` makes on the ids. */
  predicate IsExactPermutation(current: seq<string>, ordered: seq<string>) {
    && |SetOf(current)| == |ordered|
    && |SetOf(ordered)| == |ordered|
    && forall id :: id in SetOf(current) ==> id in SetOf(ordered)
  }

  lemma {:induction false} DirectIdsDistinct(ms: seq<Member>)
    requires UniqueIds(ms)
    ensures Distinct(Map(ms, MemberId))
  {
    if ms != [] {
      assert [] + (MemberIds(ms[0]) + Ids(ms[1..])) == Ids(ms);
      DistinctParts([], MemberIds(ms[0]), Ids(ms[1..]));
      DirectIdsDistinct(ms[1..]);
      MapHas(ms[1..], ms[0].id);
      assert ms[0].id in MemberIds(ms[0]);
      forall m | m in ms[1..] ensures m.id != ms[0].id { MemberIdsIn(ms[1..], m); assert m.id in MemberIds(m); }
      assert Map(ms, MemberId) == [ms[0].id] + Map(ms[1..], MemberId);
    }
  }

  /** The test accepts exactly the rearrangements of the container's ids. */
  lemma ExactPermutationIff(ms: seq<Member>, ordered: seq<string>)
    requires UniqueIds(ms)
    ensures IsExactPermutation(Map(ms, MemberId), ordered) <==> multiset(ordered) == multiset(Map(ms, MemberId))
  {
    var current := Map(ms, MemberId);
    DirectIdsDistinct(ms);
    SetOfSize(current);
    SetOfSize(ordered);
    if IsExactPermutation(current, ordered) {
      SubsetOfSameSize(SetOf(current), SetOf(ordered));
      assert forall id :: id in current <==> id in SetOf(current);
      assert forall id :: id in ordered <==> id in SetOf(ordered);
      DistinctSameMembers(current, ordered);
    }
    if multiset(ordered) == multiset(current) {
      DistinctPermutation(current, ordered);
      assert |multiset(ordered)| == |multiset(current)|;
      forall id | id in current ensures id in ordered { assert id in multiset(ordered); }
    }
  }

  lemma SubsetOfSameSize<T>(a: set<T>, b: set<T>)
    requires a <= b && |a| == |b|
    ensures a == b
  {
    assert b == a + (b - a);
    assert |b - a| == 0;
  }

  lemma IdIsFound(ms: seq<Member>, orderedIds: seq<string>, i: nat, done: seq<Member>)
    requires UniqueIds(ms) && multiset(orderedIds) == multiset(Map(ms, MemberId)) && i < |orderedIds|
    requires Map(done, MemberId) == orderedIds[..i]
    ensures var found := FindDirect(ms, orderedIds[i]);
            found.Some? && found.value in ms && Map(done + [found.value], MemberId) == orderedIds[..i + 1]
  {
    assert orderedIds[i] in multiset(Map(ms, MemberId));
    MapHas(ms, orderedIds[i]);
    var n :| n in ms && n.id == orderedIds[i];
    FindDirectExact(ms, n);
    PushedId(done, n, orderedIds, i);
  }

  lemma PushedId(done: seq<Member>, n: Member, ids: seq<string>, i: nat)
    requires i < |ids| && Map(done, MemberId) == ids[..i] && n.id == ids[i]
    ensures Map(done + [n], MemberId) == ids[..i + 1]
  {
    MapAppend(done, [n], MemberId);
    assert ids[..i + 1] == ids[..i] + [ids[i]];
  }

  /** The members re-added in the order of the ids. */
  method InOrder(ms: seq<Member>, orderedIds: seq<string>) returns (reordered: seq<Member>)
    requires UniqueIds(ms) && multiset(orderedIds) == multiset(Map(ms, MemberId))
    ensures Map(reordered, MemberId) == orderedIds && multiset(reordered) == multiset(ms)
  {
    reordered := [];
    for i := 0 to |orderedIds|
      invariant Map(reordered, MemberId) == orderedIds[..i]
      invariant forall m :: m in reordered ==> m in ms
    {
      IdIsFound(ms, orderedIds, i, reordered);
      var member := FindDirect(ms, orderedIds[i]);
      if member.Some? {
        reordered := reordered + [member.value];
      }
    }
    assert orderedIds[..|orderedIds|] == orderedIds;
    SameIdsSameMembers(ms, reordered);
  }

  lemma SameIdsSameMembers(ms: seq<Member>, ns: seq<Member>)
    requires UniqueIds(ms) && multiset(Map(ns, MemberId)) == multiset(Map(ms, MemberId)) && forall n :: n in ns ==> n in ms
    ensures multiset(ns) == multiset(ms)
  {
    DirectIdsDistinct(ms);
    DistinctPermutation(Map(ms, MemberId), Map(ns, MemberId));
    DistinctIfMapped(ms);
    DistinctIfMapped(ns);
    forall m | m in ms ensures m in ns {
      MapHas(ms, m.id);
      assert m.id in multiset(Map(ns, MemberId));
      MapHas(ns, m.id);
      var n :| n in ns && n.id == m.id;
      FindDirectExact(ms, n);
      FindDirectExact(ms, m);
    }
    DistinctSameMembers(ms, ns);
  }

  lemma DistinctIfMapped(ms: seq<Member>)
    requires Distinct(Map(ms, MemberId))
    ensures Distinct(ms)
  {
    forall i, j | 0 <= i < j < |ms| ensures ms[i] != ms[j] {
      assert Map(ms, MemberId)[i] != Map(ms, MemberId)[j];
    }
  }

  lemma {:induction false} PermutedListing(ms: seq<Member>, ns: seq<Member>, c: Context)
    requires multiset(ms) == multiset(ns)
    ensures multiset(Listing(ms, c)) == multiset(Listing(ns, c))
    decreases |ms|
  {
    if ms == [] {
      assert |multiset(ns)| == 0;
    } else {
      assert ms[0] in multiset(ns);
      var u, v := TakeOut(ns, ms[0]);
      assert ms == [ms[0]] + ms[1..];
      assert multiset(ms[1..]) == multiset(ms) - multiset{ms[0]};
      assert multiset(u + v) == multiset(ns) - multiset{ms[0]};
      PermutedListing(ms[1..], u + v, c);
      ListingAround(u, ms[0], v, c);
      ListingAppend(u, v, c);
    }
  }

  /** Reordering changes what no request is sent with. */
  lemma ReorderListing(items: seq<Member>, chain: seq<Member>, reordered: seq<Member>, base: Context)
    requires UniqueIds(items) && IsChain(items, chain) && multiset(reordered) == multiset(Inside(items, chain))
    ensures multiset(Listing(UpdateAt(items, PlaceOf(chain), ReplaceBy(reordered)), base)) == multiset(Listing(items, base))
  {
    PermutedListing(reordered, Inside(items, chain), EnterAll(base, chain));
    var inside := Inside(items, chain);
    assert ReplaceBy(reordered)(inside) == reordered;
    assert Balance(reordered, inside, EnterAll(base, chain), multiset{}, multiset{});
    EditListing(items, chain, ReplaceBy(reordered), base, multiset{}, multiset{});
    Cancel(multiset(Listing(UpdateAt(items, PlaceOf(chain), ReplaceBy(reordered)), base)), multiset(Listing(items, base)));
  }

  lemma Cancel<T>(a: multiset<T>, b: multiset<T>)
    requires a + multiset{} == b + multiset{}
    ensures a == b
  {
    assert a + multiset{} == a;
  }

  lemma ReorderUnique(before: seq<Member>, after: seq<Member>)
    requires UniqueIds(before) && multiset(Listing(after, NOTHING)) == multiset(Listing(before, NOTHING))
    ensures UniqueIds(after)
  {
    ListingIds(before, NOTHING);
    ListingIds(after, NOTHING);
    MapPermutation(Listing(before, NOTHING), Listing(after, NOTHING), SeenId);
    DistinctPermutation(Ids(before), Ids(after));
  }

  /** The searches of the code lead to the one chain and the one member there are. */
  lemma Located(items: seq<Member>, itemId: string) returns (current: seq<Member>, m: Member)
    requires UniqueIds(items) && itemId in Ids(items)
    ensures IsChain(items, current) && m in Inside(items, current) && m.id == itemId
    ensures FindContainer(None, items, itemId) == Some(PlaceOf(current))
    ensures current != [] ==> FolderPath(items, PlaceOf(current).value) == Some(current)
    ensures FindDirect(Inside(items, current), itemId) == Some(m)
  {
    ContainerFound(None, items, itemId);
    current, m := ContainerHolds(None, items, itemId);
    if current != [] { FolderPathExact(items, current); }
    InsideUnique(items, current);
    FindDirectExact(Inside(items, current), m);
  }

  class Collection {
    var auth: Option<Auth>
    var events: seq<Event>
    var items: seq<Member>

    ghost predicate Valid()
      reads this
    {
      UniqueIds(items)
    }

    /** What every request is sent with: the context in force at the root. */
    function Base(): Context
      reads this
    {
      Enter(NOTHING, auth, events)
    }

    /** The searches and the refusals, before anything is changed. */
    method FindMove(itemId: string, targetId: string)
      returns (refusal: Option<Error>, current: seq<Member>, target: seq<Member>, m: Member)
      requires Valid()
      ensures refusal == MoveError(items, itemId, targetId)
      ensures refusal.None? ==> Moves(items, itemId, targetId, current, target, m)
    {
      current, target, m := [], [], Item("", "", None, [], "");
      var container := FindContainer(None, items, itemId);
      ContainerFound(None, items, itemId);
      if container.None? {
        return Some(ItemNotFound(itemId)), current, target, m;
      }
      ghost var chain, held := Located(items, itemId);
      current := if container.value.None? then [] else FolderPath(items, container.value.value).value;
      m := FindDirect(Inside(items, current), itemId).value;
      var targetPath := if targetId == "root" then Some([]) else FolderPath(items, targetId);
      if targetPath.None? {
        return Some(ItemNotFound(targetId)), current, target, m;
      }
      target := targetPath.value;
      FolderPathIsChain(items, targetId);
      RefusalTests(items, current, target, m);
      if PlaceOf(target) == container.value {
        return Some(AlreadyThere), current, target, m;
      }
      if m.Folder? && m.id in Map(target, MemberId) {
        return Some(IntoItself), current, target, m;
      }
      refusal := None;
    }

    /** Fails without changing anything, or relocates exactly the member asked for. */
    method MoveItem(itemId: string, targetId: string)
      returns (r: Result<MoveCarried>, ghost current: seq<Member>, ghost target: seq<Member>, ghost m: Member)
      requires Valid()
      modifies this`items
      ensures Valid()
      ensures r.Failed? <==> MoveError(old(items), itemId, targetId).Some?
      ensures r.Failed? ==> items == old(items) && MoveError(old(items), itemId, targetId) == Some(r.error)
      ensures r.Done? ==> Moves(old(items), itemId, targetId, current, target, m)
      ensures r.Done? ==> items == Relocated(old(items), itemId, PlaceOf(target), CarriedMember(auth, m, current, target))
      ensures r.Done? ==> LandsLast(MembersAt(Without(old(items), itemId), PlaceOf(target)), MembersAt(items, PlaceOf(target)),
                                    CarriedMember(auth, m, current, target))
      ensures r.Done? ==> r.value == Report(auth, m, current, target)
    {
      var refusal, currentChain, targetChain, member := FindMove(itemId, targetId);
      current, target, m := currentChain, targetChain, member;
      if refusal.Some? {
        return Failed(refusal.value), current, target, m;
      }
      var moved, carried := Carry(auth, member, currentChain, targetChain);
      AfterMove(items, itemId, targetId, current, target, m, moved);
      items := UpdateAt(items, PlaceOf(currentChain), RemoveDirect(itemId));
      items := UpdateAt(items, PlaceOf(targetChain), PlaceLast(moved));
      r := Done(carried);
    }

    method DeleteItem(id: string) returns (r: Result<()>)
      requires Valid()
      modifies this`items
      ensures Valid()
      ensures id !in Ids(old(items)) ==> r == Failed(ItemNotFound(id)) && items == old(items)
      ensures id in Ids(old(items)) ==> r == Done(()) && items == Without(old(items), id)
    {
      var container := FindContainer(None, items, id);
      ContainerFound(None, items, id);
      if container.None? {
        return Failed(ItemNotFound(id));
      }
      ghost var current, m := Located(items, id);
      RemoveIsWithout(items, current, m);
      WithoutUnique(items, id);
      items := UpdateAt(items, container.value, RemoveDirect(id));
      return Done(());
    }

    method ReorderContainer(containerId: string, orderedIds: seq<string>) returns (r: Result<()>)
      requires Valid()
      modifies this`items
      ensures Valid()
      ensures TargetChain(old(items), containerId).None? ==> r == Failed(ItemNotFound(containerId)) && items == old(items)
      ensures TargetChain(old(items), containerId).Some? ==>
                var chain := TargetChain(old(items), containerId).value;
                var members := Inside(old(items), chain);
                if multiset(orderedIds) != multiset(Map(members, MemberId)) then r == Failed(InvalidOrder) && items == old(items)
                else r == Done(()) && exists reordered ::
                  && items == UpdateAt(old(items), PlaceOf(chain), ReplaceBy(reordered))
                  && Map(reordered, MemberId) == orderedIds && multiset(reordered) == multiset(members)
    {
      var chain := TargetChain(items, containerId);
      if chain.None? {
        return Failed(ItemNotFound(containerId));
      }
      FolderPathIsChain(items, containerId);
      InsideUnique(items, chain.value);
      var members := Inside(items, chain.value);
      ExactPermutationIff(members, orderedIds);
      if !IsExactPermutation(Map(members, MemberId), orderedIds) {
        return Failed(InvalidOrder);
      }
      var reordered := InOrder(members, orderedIds);
      ReorderListing(items, chain.value, reordered, NOTHING);
      ReorderUnique(items, UpdateAt(items, PlaceOf(chain.value), ReplaceBy(reordered)));
      items := UpdateAt(items, PlaceOf(chain.value), ReplaceBy(reordered));
      return Done(());
    }
  }

  /** The move asked for: where the member is, where it goes, and that nothing forbids it. */
  ghost predicate Moves(items: seq<Member>, itemId: string, targetId: string, current: seq<Member>, target: seq<Member>, m: Member) {
    && IsChain(items, current) && m in Inside(items, current) && m.id == itemId
    && IsChain(items, target) && TargetChain(items, targetId) == Some(target)
    && itemId !in Map(target, MemberId) && itemId !in Map(Inside(items, target), MemberId)
  }

  // ---- What a move keeps ----

  /** The target is still there once the member is taken out, and leads to the same context. */
  lemma TargetSurvives(items: seq<Member>, current: seq<Member>, target: seq<Member>, m: Member, base: Context) returns (kept: seq<Member>)
    requires UniqueIds(items) && IsChain(items, current) && IsChain(items, target) && m in Inside(items, current)
    requires m.id !in Map(target, MemberId)
    ensures kept == ChainWithout(target, m.id)
    ensures IsChain(Without(items, m.id), kept) && PlaceOf(kept) == PlaceOf(target) && EnterAll(base, kept) == EnterAll(base, target)
    ensures UniqueIds(Without(items, m.id)) && m.id !in Ids(Without(items, m.id))
  {
    MapHas(target, m.id);
    ChainSurvives(items, target, m.id, base);
    WithoutUnique(items, m.id);
    kept := ChainWithout(target, m.id);
  }

  lemma {:induction false} PlaceLastAt(ms: seq<Member>, chain: seq<Member>, m: Member)
    requires UniqueIds(ms) && IsChain(ms, chain)
    ensures UpdateAt(ms, PlaceOf(chain), PlaceLast(m)) == UpdateAt(ms, PlaceOf(chain), InsertDirect(LandsAt(m, Inside(ms, chain)), m))
    decreases |chain|
  {
    if chain != [] {
      var id := chain[|chain| - 1].id;
      LastBelowFirst(ms, chain);
      var a, b := StandsAlone(ms, chain[0]);
      UpdateOnly(a, chain[0], b, id, PlaceLast(m));
      UpdateOnly(a, chain[0], b, id, InsertDirect(LandsAt(m, Inside(ms, chain)), m));
      PlaceLastAt(chain[0].members, chain[1..], m);
    }
  }

  lemma RelocatedUnique(items: seq<Member>, current: seq<Member>, target: seq<Member>, m: Member, moved: Member)
    requires UniqueIds(items) && IsChain(items, current) && IsChain(items, target) && m in Inside(items, current)
    requires m.id !in Map(target, MemberId) && MemberIds(moved) == MemberIds(m)
    ensures UniqueIds(Relocated(items, m.id, PlaceOf(target), moved))
    ensures multiset(Ids(Relocated(items, m.id, PlaceOf(target), moved))) == multiset(Ids(items))
  {
    var rest := Without(items, m.id);
    var after := Relocated(items, m.id, PlaceOf(target), moved);
    var kept := TargetSurvives(items, current, target, m, NOTHING);
    PlaceLastAt(rest, kept, moved);
    InsertListing(rest, kept, LandsAt(moved, Inside(rest, kept)), moved, NOTHING);
    RemoveListing(items, current, m, NOTHING);
    var there, here := MemberListing(moved, EnterAll(NOTHING, kept)), MemberListing(m, EnterAll(NOTHING, current));
    IdsFromListing(items, rest, m, EnterAll(NOTHING, current));
    IdsFromListing(after, rest, moved, EnterAll(NOTHING, kept));
    DistinctPermutation(Ids(items), Ids(after));
  }

  lemma IdsFromListing(all: seq<Member>, rest: seq<Member>, m: Member, c: Context)
    requires multiset(Listing(all, NOTHING)) == multiset(Listing(rest, NOTHING)) + multiset(MemberListing(m, c))
    ensures multiset(Ids(all)) == multiset(Ids(rest)) + multiset(MemberIds(m))
  {
    ListingIds(all, NOTHING);
    ListingIds(rest, NOTHING);
    MemberListingIds(m, c);
    MapPermutation(Listing(all, NOTHING), Listing(rest, NOTHING) + MemberListing(m, c), SeenId);
    MapAppend(Listing(rest, NOTHING), MemberListing(m, c), SeenId);
  }

  /** A request lands behind everything, a folder behind the folders and before the requests that follow the last of them. */
  ghost predicate LandsBetween(moved: Member, a: seq<Member>, b: seq<Member>) {
    && (moved.Item? ==> b == [])
    && (moved.Folder? ==> (a == [] || a[|a| - 1].Folder?) && forall x :: x in b ==> x.Item?)
  }

  /** `after` is `before` with the moved member in the place where it lands. */
  ghost predicate LandsLast(before: seq<Member>, after: seq<Member>, moved: Member) {
    exists a, b :: before == a + b && after == a + [moved] + b && LandsBetween(moved, a, b)
  }

  /** In its new container the moved member is last of its kind, and everything else stands as it did. */
  lemma MovedLandsLast(items: seq<Member>, itemId: string, targetId: string, current: seq<Member>, target: seq<Member>, m: Member, moved: Member)
    requires UniqueIds(items) && Moves(items, itemId, targetId, current, target, m) && MemberIds(moved) == MemberIds(m)
    ensures LandsLast(MembersAt(Without(items, itemId), PlaceOf(target)),
                      MembersAt(Relocated(items, itemId, PlaceOf(target), moved), PlaceOf(target)), moved)
  {
    RelocatedUnique(items, current, target, m, moved);
    var rest := Without(items, m.id);
    var kept := TargetSurvives(items, current, target, m, NOTHING);
    var edited := EditedInside(rest, kept, PlaceLast(moved));
    MembersAtChain(rest, kept);
    MembersAtChain(Relocated(items, itemId, PlaceOf(target), moved), edited);
    PlacedLast(Inside(rest, kept), moved);
  }

  /** What the two edits of a move come to. */
  lemma AfterMove(items: seq<Member>, itemId: string, targetId: string, current: seq<Member>, target: seq<Member>, m: Member, moved: Member)
    requires UniqueIds(items) && Moves(items, itemId, targetId, current, target, m) && MemberIds(moved) == MemberIds(m)
    ensures var after := UpdateAt(UpdateAt(items, PlaceOf(current), RemoveDirect(itemId)), PlaceOf(target), PlaceLast(moved));
            && after == Relocated(items, itemId, PlaceOf(target), moved) && UniqueIds(after)
            && LandsLast(MembersAt(Without(items, itemId), PlaceOf(target)), MembersAt(after, PlaceOf(target)), moved)
  {
    RemoveIsWithout(items, current, m);
    RelocatedUnique(items, current, target, m, moved);
    MovedLandsLast(items, itemId, targetId, current, target, m, moved);
  }

  lemma PlacedLast(ms: seq<Member>, moved: Member)
    ensures LandsLast(ms, PlaceLast(moved)(ms), moved)
  {
    var k := LandsAt(moved, ms);
    var a, b := ms[..k], ms[k..];
    var placed := PlaceLast(moved)(ms);
    assert placed == InsertDirect(k, moved)(ms);
    assert placed == a + ([moved] + b);
    assert ms == a + b;
    assert placed == a + [moved] + b;
    assert LandsBetween(moved, a, b);
  }

  /** Outside the member that is moved, nothing of the tree changes: taken out again, it leaves what it left before. */
  lemma RestIsUntouched(items: seq<Member>, itemId: string, targetId: string, current: seq<Member>, target: seq<Member>, m: Member, moved: Member)
    requires UniqueIds(items) && Moves(items, itemId, targetId, current, target, m)
    requires moved.id == itemId && MemberIds(moved) == MemberIds(m)
    ensures Without(Relocated(items, itemId, PlaceOf(target), moved), itemId) == Without(items, itemId)
    ensures multiset(Ids(Relocated(items, itemId, PlaceOf(target), moved))) == multiset(Ids(items))
  {
    RelocatedUnique(items, current, target, m, moved);
    var kept := TargetSurvives(items, current, target, m, NOTHING);
    var rest := Without(items, m.id);
    PlaceLastAt(rest, kept, moved);
    InsertThenWithout(rest, kept, LandsAt(moved, Inside(rest, kept)), moved);
  }

  // ---- Auth ----

  /** The reverse walk over parents finds what top-down inheritance gives. */
  lemma {:induction false} InheritedIsInForce(collectionAuth: Option<Auth>, chain: seq<Member>, base: Context)
    requires base.auth == Usable(collectionAuth)
    ensures EnterAll(base, chain).auth == AuthOf(InheritedAuth(collectionAuth, chain))
    ensures Usable(EnterAll(base, chain).auth) == EnterAll(base, chain).auth
    decreases |chain|
  {
    if chain != [] {
      var init, last := chain[..|chain| - 1], chain[|chain| - 1];
      assert chain == init + [last];
      EnterAllAppend(base, init, [last]);
      assert [last][1..] == [];
      InheritedIsInForce(collectionAuth, init, base);
    }
  }

  /** Where the inherited auth comes from. */
  lemma {:induction false} SourceGivesAuth(collectionAuth: Option<Auth>, chain: seq<Member>)
    ensures var inherited := InheritedAuth(collectionAuth, chain);
            inherited.Some? ==>
              match inherited.value.source
              case FromCollection => Some(inherited.value.auth) == collectionAuth
              case FromFolder(id, _) => exists f :: f in chain && f.id == id && Some(inherited.value.auth) == f.auth
    decreases |chain|
  {
    if chain != [] {
      assert chain[|chain| - 1] in chain;
      SourceGivesAuth(collectionAuth, chain[..|chain| - 1]);
    }
  }

  /** The same source gives the same auth. */
  lemma SameSourceSameAuth(items: seq<Member>, collectionAuth: Option<Auth>, p: seq<Member>, q: seq<Member>)
    requires UniqueIds(items) && IsChain(items, p) && IsChain(items, q)
    requires SourceOf(InheritedAuth(collectionAuth, p)) == SourceOf(InheritedAuth(collectionAuth, q))
    ensures AuthOf(InheritedAuth(collectionAuth, p)) == AuthOf(InheritedAuth(collectionAuth, q))
  {
    SourceGivesAuth(collectionAuth, p);
    SourceGivesAuth(collectionAuth, q);
    forall f, g | f in p && g in q && f.id == g.id ensures f == g {
      var i :| 0 <= i < |p| && p[i] == f;
      var j :| 0 <= j < |q| && q[j] == g;
      ChainHolds(items, p, i);
      ChainHolds(items, q, j);
      HolderUnique(items, p[..i], q[..j], f, g);
    }
  }

  /** `noauth` and no auth at all send the same request. */
  function Sends(auth: Option<Auth>): Option<Auth> {
    if auth == Some(NOAUTH) then None else auth
  }

  lemma CarriedAuthSends(m: Member, before: Option<Inherited>, after: Option<Inherited>)
    requires Usable(AuthOf(before)) == AuthOf(before)
    requires SourceOf(before) == SourceOf(after) ==> AuthOf(before) == AuthOf(after)
    ensures var carried := AuthAfterMove(m, before, after);
            Sends(if Usable(carried).Some? then carried else AuthOf(after)) == Sends(if Usable(m.auth).Some? then m.auth else AuthOf(before))
  {
  }

  /** Whatever the member sets itself, moving it leaves the auth in force inside it as it was. */
  lemma AuthInForceIsKept(items: seq<Member>, collectionAuth: Option<Auth>, current: seq<Member>, target: seq<Member>, m: Member, base: Context)
    requires UniqueIds(items) && IsChain(items, current) && IsChain(items, target) && base.auth == Usable(collectionAuth)
    ensures var moved := CarriedMember(collectionAuth, m, current, target);
            Sends(EnterMember(EnterAll(base, target), moved).auth) == Sends(EnterMember(EnterAll(base, current), m).auth)
  {
    InheritedIsInForce(collectionAuth, current, base);
    InheritedIsInForce(collectionAuth, target, base);
    var before, after := InheritedAuth(collectionAuth, current), InheritedAuth(collectionAuth, target);
    if SourceOf(before) == SourceOf(after) {
      SameSourceSameAuth(items, collectionAuth, current, target);
    }
    CarriedAuthSends(m, before, after);
  }

  // ---- Scripts ----

  function ChainScripts(chain: seq<Member>, listen: string): seq<string> {
    if chain == [] then [] else Scripts(chain[0].events, listen) + ChainScripts(chain[1..], listen)
  }

  /** The copies of the scripts of some folders, in the same order. */
  function ChainCopies(chain: seq<Member>, listen: string): seq<string> {
    if chain == [] then [] else Map(Scripts(chain[0].events, listen), CopyFor(chain[0])) + ChainCopies(chain[1..], listen)
  }

  lemma {:induction false} ChainScriptsInForce(base: Context, chain: seq<Member>)
    ensures EnterAll(base, chain).prerequest == base.prerequest + ChainScripts(chain, "prerequest")
    ensures EnterAll(base, chain).test == base.test + ChainScripts(chain, "test")
    decreases |chain|
  {
    if chain != [] { ChainScriptsInForce(EnterMember(base, chain[0]), chain[1..]); }
  }

  lemma {:induction false} ChainScriptsAppend(p: seq<Member>, q: seq<Member>, listen: string)
    ensures ChainScripts(p + q, listen) == ChainScripts(p, listen) + ChainScripts(q, listen)
  {
    if p == [] {
      assert p + q == q;
    } else {
      assert (p + q)[1..] == p[1..] + q;
      ChainScriptsAppend(p[1..], q, listen);
    }
  }

  /** The folders left are the part of the chain after what the two chains share. */
  lemma LeftFoldersAreTheRest(items: seq<Member>, current: seq<Member>, target: seq<Member>)
    requires UniqueIds(items) && IsChain(items, current) && IsChain(items, target)
    ensures LeftFolders(current, target) == current[Shared(current, target)..]
  {
    var n := Shared(current, target);
    assert current == current[..n] + current[n..];
    FilterAppend(current[..n], current[n..], NotAmong(target));
    SharedIsAmong(current, target);
    FilterNone(current[..n], NotAmong(target));
    RestIsNotAmong(items, current, target);
    FilterAll(current[n..], NotAmong(target));
  }

  lemma SharedIsAmong(current: seq<Member>, target: seq<Member>)
    ensures forall f :: f in current[..Shared(current, target)] ==> !NotAmong(target)(f)
  {
    var n := Shared(current, target);
    forall f | f in current[..n] ensures !NotAmong(target)(f) {
      assert f in target[..n];
      MapHas(target, f.id);
    }
  }

  lemma RestIsNotAmong(items: seq<Member>, current: seq<Member>, target: seq<Member>)
    requires UniqueIds(items) && IsChain(items, current) && IsChain(items, target)
    ensures forall f :: f in current[Shared(current, target)..] ==> NotAmong(target)(f)
  {
    var n := Shared(current, target);
    ChainsPart(items, current, target);
    forall f | f in current[n..] ensures NotAmong(target)(f) {
      var i :| n <= i < |current| && current[i] == f;
      MapHas(target, f.id);
    }
  }

  lemma {:induction false} ScriptsOfCopies(folder: Member, sources: seq<string>, kind: string, listen: string)
    ensures Scripts(Map(sources, CopyEvent(folder, kind)), listen) == if kind == listen then Map(sources, CopyFor(folder)) else []
  {
    if sources != [] {
      CopyIsNotBlank(folder, sources[0]);
      ScriptsOfCopies(folder, sources[1..], kind, listen);
      var copies := Map(sources, CopyEvent(folder, kind));
      assert copies[1..] == Map(sources[1..], CopyEvent(folder, kind));
    }
  }

  lemma CopiesFromOne(f: Member, listen: string)
    requires listen == "prerequest" || listen == "test"
    ensures Scripts(CopiesFrom(f), listen) == Map(Scripts(f.events, listen), CopyFor(f))
  {
    ScriptsOfCopies(f, Scripts(f.events, "prerequest"), "prerequest", listen);
    ScriptsOfCopies(f, Scripts(f.events, "test"), "test", listen);
    ScriptsAppend(CopiesOf(f, "prerequest"), CopiesOf(f, "test"), listen);
    assert "prerequest"[0] == 'p' && "test"[0] == 't';
  }

  lemma {:induction false} CopiedScriptsInOrder(folders: seq<Member>, listen: string)
    requires listen == "prerequest" || listen == "test"
    ensures Scripts(CopiedEvents(folders), listen) == ChainCopies(folders, listen)
  {
    if folders != [] {
      CopiedScriptsInOrder(folders[1..], listen);
      CopiesFromOne(folders[0], listen);
      ScriptsAppend(CopiesFrom(folders[0]), CopiedEvents(folders[1..]), listen);
    }
  }

  ghost predicate AllRunTheSame(copies: seq<string>, sources: seq<string>) {
    |copies| == |sources| && forall i :: 0 <= i < |sources| ==> RunsTheSame(copies[i], sources[i])
  }

  ghost predicate CleanFolders(folders: seq<Member>, listen: string) {
    forall f :: f in folders && Scripts(f.events, listen) != [] ==> CleanFolder(f)
  }

  lemma {:induction false} CopiesFromOneRunTheSame(f: Member, sources: seq<string>)
    ensures AllRunTheSame(Map(sources, CopyFor(f)), sources) <==> sources == [] || CleanFolder(f)
  {
    var copies := Map(sources, CopyFor(f));
    forall i | 0 <= i < |sources| ensures RunsTheSame(copies[i], sources[i]) <==> CleanFolder(f) {
      CopyRunsTheSame(f, sources[i]);
    }
    if sources != [] { assert RunsTheSame(copies[0], sources[0]) <==> CleanFolder(f); }
  }

  lemma AllRunTheSameAppend(a: seq<string>, b: seq<string>, x: seq<string>, y: seq<string>)
    requires |a| == |x|
    ensures AllRunTheSame(a + b, x + y) <==> AllRunTheSame(a, x) && AllRunTheSame(b, y)
  {
    var n := |a|;
    if AllRunTheSame(a + b, x + y) {
      forall i | 0 <= i < |x| ensures RunsTheSame(a[i], x[i]) { assert (a + b)[i] == a[i] && (x + y)[i] == x[i]; }
      forall i | 0 <= i < |y| ensures RunsTheSame(b[i], y[i]) {
        assert (a + b)[n + i] == b[i] && (x + y)[n + i] == y[i];
      }
    }
  }

  lemma CleanFoldersCons(folders: seq<Member>, listen: string)
    requires folders != []
    ensures CleanFolders(folders, listen) <==>
            (Scripts(folders[0].events, listen) == [] || CleanFolder(folders[0])) && CleanFolders(folders[1..], listen)
  {
    assert forall f :: f in folders <==> f == folders[0] || f in folders[1..];
  }

  /**
   * Each copy stands for one script, in the same order. All of them run what they copy if and only if every left
   * folder that has scripts of this kind has a clean name and id.
   */
  lemma {:induction false} CopiesMatchScripts(folders: seq<Member>, listen: string)
    ensures |ChainCopies(folders, listen)| == |ChainScripts(folders, listen)|
    ensures AllRunTheSame(ChainCopies(folders, listen), ChainScripts(folders, listen)) <==> CleanFolders(folders, listen)
  {
    if folders != [] {
      var f, rest := folders[0], folders[1..];
      var scripts := Scripts(f.events, listen);
      CopiesFromOneRunTheSame(f, scripts);
      CopiesMatchScripts(rest, listen);
      CleanFoldersCons(folders, listen);
      AllRunTheSameAppend(Map(scripts, CopyFor(f)), ChainCopies(rest, listen), scripts, ChainScripts(rest, listen));
    }
  }

  /** How the scripts of one kind change: `left` gives way to `added` and then `copies`, everything else stays in place. */
  datatype Change = Change(common: seq<string>, left: seq<string>, added: seq<string>, copies: seq<string>)

  ghost predicate Changes(change: Change, before: seq<string>, after: seq<string>) {
    var n := |change.common| + |change.left|;
    && n <= |before|
    && before[..n] == change.common + change.left
    && after == change.common + change.added + change.copies + before[n..]
  }

  ghost predicate Keeps(before: Context, after: Context, prerequest: Change, test: Change) {
    && Sends(after.auth) == Sends(before.auth)
    && Changes(prerequest, before.prerequest, after.prerequest)
    && Changes(test, before.test, after.test)
  }

  function ChangeOf(base: seq<string>, current: seq<Member>, target: seq<Member>, listen: string): Change {
    var n := Shared(current, target);
    Change(base + ChainScripts(current[..n], listen), ChainScripts(current[n..], listen),
           ChainScripts(target[n..], listen), ChainCopies(current[n..], listen))
  }

  /** The copies a move makes run what they replace. */
  ghost predicate CopiesRun(change: Change) {
    AllRunTheSame(change.copies, change.left)
  }

  lemma CopiesRunIff(items: seq<Member>, base: seq<string>, current: seq<Member>, target: seq<Member>, listen: string)
    requires UniqueIds(items) && IsChain(items, current) && IsChain(items, target)
    ensures CopiesRun(ChangeOf(base, current, target, listen)) <==> CleanFolders(LeftFolders(current, target), listen)
  {
    LeftFoldersAreTheRest(items, current, target);
    CopiesMatchScripts(LeftFolders(current, target), listen);
  }

  lemma ChangesGrow(change: Change, before: seq<string>, after: seq<string>, more: seq<string>)
    requires Changes(change, before, after)
    ensures Changes(change, before + more, after + more)
  {
    var n := |change.common| + |change.left|;
    assert (before + more)[..n] == before[..n];
    assert (before + more)[n..] == before[n..] + more;
  }

  /** Entering the same member keeps what is kept. */
  lemma KeepsBelow(before: Context, after: Context, prerequest: Change, test: Change, m: Member)
    requires Keeps(before, after, prerequest, test)
    ensures Keeps(EnterMember(before, m), EnterMember(after, m), prerequest, test)
  {
    ChangesGrow(prerequest, before.prerequest, after.prerequest, Scripts(m.events, "prerequest"));
    ChangesGrow(test, before.test, after.test, Scripts(m.events, "test"));
  }

  lemma OneKindChanges(
    items: seq<Member>, base: seq<string>, current: seq<Member>, target: seq<Member>, own: seq<Event>, listen: string)
    requires UniqueIds(items) && IsChain(items, current) && IsChain(items, target)
    requires listen == "prerequest" || listen == "test"
    ensures Changes(ChangeOf(base, current, target, listen),
              base + ChainScripts(current, listen) + Scripts(own, listen),
              base + ChainScripts(target, listen) + Scripts(CopiedEvents(LeftFolders(current, target)) + own, listen))
  {
    var n := Shared(current, target);
    LeftFoldersAreTheRest(items, current, target);
    assert current == current[..n] + current[n..] && target == target[..n] + target[n..];
    ChainScriptsAppend(current[..n], current[n..], listen);
    ChainScriptsAppend(target[..n], target[n..], listen);
    ScriptsAppend(CopiedEvents(current[n..]), own, listen);
    CopiedScriptsInOrder(current[n..], listen);
    SplitsAs(base, ChainScripts(current[..n], listen), ChainScripts(current[n..], listen), ChainScripts(target[n..], listen),
             ChainCopies(current[n..], listen), Scripts(own, listen));
  }

  lemma SplitsAs(base: seq<string>, shared: seq<string>, left: seq<string>, added: seq<string>, copies: seq<string>, own: seq<string>)
    ensures Changes(Change(base + shared, left, added, copies), base + (shared + left) + own, base + (shared + added) + (copies + own))
  {
    var before := base + (shared + left) + own;
    var n := |base + shared| + |left|;
    assert before[..n] == base + shared + left;
    assert before[n..] == own;
  }

  /** Inside the moved member the context keeps its meaning. */
  lemma MemberContextIsKept(
    items: seq<Member>, collectionAuth: Option<Auth>, current: seq<Member>, target: seq<Member>, m: Member, base: Context)
    requires UniqueIds(items) && IsChain(items, current) && IsChain(items, target) && base.auth == Usable(collectionAuth)
    ensures Keeps(EnterMember(EnterAll(base, current), m),
                  EnterMember(EnterAll(base, target), CarriedMember(collectionAuth, m, current, target)),
                  ChangeOf(base.prerequest, current, target, "prerequest"), ChangeOf(base.test, current, target, "test"))
  {
    AuthInForceIsKept(items, collectionAuth, current, target, m, base);
    ChainScriptsInForce(base, current);
    ChainScriptsInForce(base, target);
    OneKindChanges(items, base.prerequest, current, target, m.events, "prerequest");
    OneKindChanges(items, base.test, current, target, m.events, "test");
  }

  // ---- What a move reports ----

  ghost predicate Sets(auth: Option<Auth>) {
    auth.Some? && auth.value.usable
  }

  /** The folder at this position provides the auth, and no folder further in sets one. */
  ghost predicate Provides(chain: seq<Member>, i: nat, id: string, name: string, auth: Auth) {
    && i < |chain| && chain[i].id == id && chain[i].name == name && chain[i].auth == Some(auth)
    && forall j :: i < j < |chain| ==> !Sets(chain[j].auth)
  }

  /** Inherited is the usable auth of the innermost folder that sets one, else the collection's, else none. */
  lemma {:induction false} InheritedFrom(collectionAuth: Option<Auth>, chain: seq<Member>)
    ensures var found := InheritedAuth(collectionAuth, chain);
            && (found.None? <==> !Sets(collectionAuth) && forall f :: f in chain ==> !Sets(f.auth))
            && (found.Some? ==>
                  && found.value.auth.usable
                  && match found.value.source
                     case FromCollection => collectionAuth == Some(found.value.auth) && forall f :: f in chain ==> !Sets(f.auth)
                     case FromFolder(id, name) => exists i :: Provides(chain, i, id, name, found.value.auth))
    decreases |chain|
  {
    if chain != [] {
      var init, last := chain[..|chain| - 1], chain[|chain| - 1];
      InheritedFrom(collectionAuth, init);
      assert last in chain && chain == init + [last];
      if Usable(last.auth).Some? {
        assert Provides(chain, |chain| - 1, last.id, last.name, last.auth.value);
      } else {
        forall i, id, name, auth | Provides(init, i, id, name, auth) ensures Provides(chain, i, id, name, auth) {}
      }
    }
  }

  /** The folder's own scripts of a kind: written on it, for that event, and not only white space. */
  ghost predicate HasOwnScript(f: Member, listen: string) {
    exists e :: e in f.events && e.listen == listen && e.source.Some? && exists c :: c in e.source.value && !IsSpace(c)
  }

  lemma {:induction false} ScriptsIff(events: seq<Event>, listen: string)
    ensures Scripts(events, listen) != [] <==>
            exists e :: e in events && e.listen == listen && e.source.Some? && exists c :: c in e.source.value && !IsSpace(c)
  {
    if events != [] {
      ScriptsIff(events[1..], listen);
      var e := events[0];
      if e.source.Some? {
        if !IsBlank(e.source.value) {
          var i :| 0 <= i < |e.source.value| && !IsSpace(e.source.value[i]);
          assert e.source.value[i] in e.source.value;
        }
        if c :| c in e.source.value && !IsSpace(c) { assert !IsBlank(e.source.value); }
      }
      assert events == [e] + events[1..];
    }
  }

  /** What is said of one folder left: its id and name, and the kinds of scripts it has. */
  ghost predicate TellsFolder(r: FolderScripts, f: Member) {
    && r.id == f.id && r.name == f.name && r.events != []
    && r.events == (if HasOwnScript(f, "prerequest") then ["prerequest"] else []) + (if HasOwnScript(f, "test") then ["test"] else [])
  }

  ghost predicate TellsAll(report: seq<FolderScripts>, folders: seq<Member>) {
    |report| == |folders| && forall i :: 0 <= i < |folders| ==> TellsFolder(report[i], folders[i])
  }

  ghost predicate HasOwnScripts(f: Member) {
    HasOwnScript(f, "prerequest") || HasOwnScript(f, "test")
  }

  lemma ReportOfTells(f: Member)
    ensures TellsAll(ReportOf(f), if HasOwnScripts(f) then [f] else [])
  {
    ScriptsIff(f.events, "prerequest");
    ScriptsIff(f.events, "test");
  }

  lemma {:induction false} ReportsFolders(folders: seq<Member>)
    ensures TellsAll(ScriptsReport(folders), Filter(folders, f => HasOwnScripts(f)))
  {
    if folders != [] {
      ReportsFolders(folders[1..]);
      ReportOfTells(folders[0]);
    }
  }

  /**
   * The report of a move: the auth that was written onto the member, with the folder it came from, and nothing when
   * none was; and every folder left that has scripts, in order, with the kinds that were copied.
   */
  lemma ReportTells(collectionAuth: Option<Auth>, m: Member, current: seq<Member>, target: seq<Member>)
    ensures var r, moved := Report(collectionAuth, m, current, target), CarriedMember(collectionAuth, m, current, target);
            && (r.auth.None? ==> moved.auth == m.auth)
            && (r.auth.Some? ==>
                  && Usable(m.auth).None? && moved.auth.Some? && r.auth.value.kind == moved.auth.value.kind
                  && (r.auth.value.fromFolderName.Some? ==>
                        exists f :: f in current && f.name == r.auth.value.fromFolderName.value && f.auth == moved.auth)
                  && (r.auth.value.fromFolderName.None? ==> moved.auth == collectionAuth || moved.auth == Some(Auth("noauth", "", true))))
    ensures TellsAll(Report(collectionAuth, m, current, target).scriptsFromFolders,
                     Filter(LeftFolders(current, target), f => HasOwnScripts(f)))
  {
    InheritedFrom(collectionAuth, current);
    ReportsFolders(LeftFolders(current, target));
  }

  // ---- The main result ----

  /** What was seen before the move and what is seen after it are the same request, sent with the same meaning. */
  ghost predicate SeenTheSame(before: Seen, after: Seen, prerequest: Change, test: Change) {
    match before
    case Holder(_, _) => after == before
    case Request(id, name, request, sent) =>
      && after.Request? && after.id == id && after.name == name && after.request == request
      && Keeps(sent, after.sent, prerequest, test)
  }

  ghost predicate AllSeenTheSame(before: seq<Seen>, after: seq<Seen>, prerequest: Change, test: Change) {
    |before| == |after| && forall i :: 0 <= i < |before| ==> SeenTheSame(before[i], after[i], prerequest, test)
  }

  lemma {:induction false} ListingKept(ms: seq<Member>, before: Context, after: Context, prerequest: Change, test: Change)
    requires Keeps(before, after, prerequest, test)
    ensures AllSeenTheSame(Listing(ms, before), Listing(ms, after), prerequest, test)
    decreases ms
  {
    if ms != [] {
      KeepsBelow(before, after, prerequest, test, ms[0]);
      MemberListingKept(ms[0], ms[0], before, after, prerequest, test);
      ListingKept(ms[1..], before, after, prerequest, test);
    }
  }

  lemma {:induction false} MemberListingKept(m: Member, n: Member, before: Context, after: Context, prerequest: Change, test: Change)
    requires n == m.(auth := n.auth, events := n.events)
    requires Keeps(EnterMember(before, m), EnterMember(after, n), prerequest, test)
    ensures AllSeenTheSame(MemberListing(m, before), MemberListing(n, after), prerequest, test)
    decreases m
  {
    if m.Folder? { ListingKept(m.members, EnterMember(before, m), EnterMember(after, n), prerequest, test); }
  }

  /**
   * Moving a member keeps what it means. What is seen of the whole collection changes only by the moved member;
   * every request in it is the same request with the same effective auth, its scripts are those it ran before with
   * each script of a folder it left replaced in order by its copy, and the only scripts it gains are those of the
   * target's folders that it was not in before. The copies run what they replace if and only if the folders it left
   * have clean names and ids.
   */
  lemma MoveKeepsMeaning(
    items: seq<Member>, itemId: string, targetId: string, current: seq<Member>, target: seq<Member>, m: Member,
    auth: Option<Auth>, events: seq<Event>)
    requires UniqueIds(items) && Moves(items, itemId, targetId, current, target, m)
    ensures var base := Enter(NOTHING, auth, events);
            var moved := CarriedMember(auth, m, current, target);
            var rest := multiset(Listing(Without(items, itemId), base));
            var before, after := MemberListing(m, EnterAll(base, current)), MemberListing(moved, EnterAll(base, target));
            && multiset(Listing(items, base)) == rest + multiset(before)
            && multiset(Listing(Relocated(items, itemId, PlaceOf(target), moved), base)) == rest + multiset(after)
            && AllSeenTheSame(before, after, ChangeOf(base.prerequest, current, target, "prerequest"), ChangeOf(base.test, current, target, "test"))
    ensures var base, left := Enter(NOTHING, auth, events), LeftFolders(current, target);
            && (CopiesRun(ChangeOf(base.prerequest, current, target, "prerequest")) <==> CleanFolders(left, "prerequest"))
            && (CopiesRun(ChangeOf(base.test, current, target, "test")) <==> CleanFolders(left, "test"))
  {
    var base := Enter(NOTHING, auth, events);
    CopiesRunIff(items, base.prerequest, current, target, "prerequest");
    CopiesRunIff(items, base.test, current, target, "test");
    var moved := CarriedMember(auth, m, current, target);
    RemoveListing(items, current, m, base);
    var kept := TargetSurvives(items, current, target, m, base);
    var rest := Without(items, m.id);
    PlaceLastAt(rest, kept, moved);
    InsertListing(rest, kept, LandsAt(moved, Inside(rest, kept)), moved, base);
    MemberContextIsKept(items, auth, current, target, m, base);
    MemberListingKept(m, moved, EnterAll(base, current), EnterAll(base, target),
                      ChangeOf(base.prerequest, current, target, "prerequest"), ChangeOf(base.test, current, target, "test"));
  }
}
