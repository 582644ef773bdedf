/**
 What a group repository answers, said of its configured members and the rows alone: the
 repository's own row comes first, then the row of the first member, in the order of the
 configuration, that exists in the group's format, can be asked, and has one.
 */
module Groups {
  import opened Sequences
  import opened Order
  import opened Like
  import opened Wrappers
  import opened Storage
  import opened Artifacts

  /** Who is asked at a place of a lookup: the repository itself, then at place `n + 1` its n-th configured member. */
  function Asked(repos: Repos, repoId: string, down: set<nat>, place: nat): Option<string> {
    if place == 0 then Some(repoId)
    else if repoId !in repos.byId || !repos.byId[repoId].kind.Group? then None
    else
      var group, n := repos.byId[repoId], place - 1;
      if n < |group.members| && n !in down && (group.members[n], group.format) in repos.byName
      then Some(repos.byName[(group.members[n], group.format)]) else None
  }

  predicate HasAt(repos: Repos, rows: Rows, repoId: string, down: set<nat>, path: string, place: nat) {
    Asked(repos, repoId, down, place).Some? && (Asked(repos, repoId, down, place).value, path) in rows
  }

  function RowAt(repos: Repos, rows: Rows, repoId: string, down: set<nat>, path: string, place: nat): Artifact
    requires HasAt(repos, rows, repoId, down, path, place)
  {
    rows[(Asked(repos, repoId, down, place).value, path)]
  }

  ghost predicate FirstAt(repos: Repos, rows: Rows, repoId: string, down: set<nat>, path: string, place: nat) {
    && HasAt(repos, rows, repoId, down, path, place)
    && forall earlier: nat :: earlier < place ==> !HasAt(repos, rows, repoId, down, path, earlier)
  }

  /** No place has the path. */
  ghost predicate Nowhere(repos: Repos, rows: Rows, repoId: string, down: set<nat>, path: string) {
    forall place: nat :: !HasAt(repos, rows, repoId, down, path, place)
  }

  predicate IsGroup(repos: Repos, repoId: string) {
    repoId in repos.byId && repos.byId[repoId].kind.Group?
  }

  /** The first `n` members, and the group before them. */
  function ChainUpTo(repos: Repos, repoId: string, down: set<nat>, n: nat): seq<string>
    requires IsGroup(repos, repoId) && n <= |repos.byId[repoId].members|
  {
    [repoId] + MemberIds(repos, repos.byId[repoId].members[..n], repos.byId[repoId].format, down)
  }

  lemma ChainGrows(repos: Repos, repoId: string, down: set<nat>, n: nat)
    requires IsGroup(repos, repoId) && n < |repos.byId[repoId].members|
    ensures var who := Asked(repos, repoId, down, n + 1);
            ChainUpTo(repos, repoId, down, n + 1) ==
            ChainUpTo(repos, repoId, down, n) + (if who.Some? then [who.value] else [])
  {
    NextMember(repos, repoId, repos.byId[repoId].members, repos.byId[repoId].format, down, n);
  }

  lemma WholeChain(repos: Repos, repoId: string, down: set<nat>)
    ensures !IsGroup(repos, repoId) ==> Chain(repos, repoId, down) == [repoId]
    ensures IsGroup(repos, repoId) ==>
              && Chain(repos, repoId, down) == ChainUpTo(repos, repoId, down, |repos.byId[repoId].members|)
              && ChainUpTo(repos, repoId, down, 0) == [repoId]
  {
    if IsGroup(repos, repoId) { Takes([repoId], repos.byId[repoId].members, ""); }
  }

  lemma HitWithOneMore(rows: Rows, chain: seq<string>, id: string, path: string)
    ensures FirstHit(rows, chain + [id], path) ==
            if FirstHit(rows, chain, path).Some? then FirstHit(rows, chain, path) else LookUp(rows, id, path)
  {
    LastAdded(chain, id);
    Takes(chain, [], id);
  }

  /** What the first hit among some first places says of each place. */
  ghost predicate HitSays(repos: Repos, rows: Rows, repoId: string, down: set<nat>, path: string, n: nat,
                          hit: Option<Artifact>)
  {
    && (hit.None? ==> forall place: nat :: place <= n ==> !HasAt(repos, rows, repoId, down, path, place))
    && (hit.Some? ==> exists place: nat :: place <= n && FirstAt(repos, rows, repoId, down, path, place)
                                           && RowAt(repos, rows, repoId, down, path, place) == hit.value)
  }

  lemma OnePlaceMore(repos: Repos, rows: Rows, repoId: string, down: set<nat>, path: string, n: nat,
                     before: Option<Artifact>)
    requires HitSays(repos, rows, repoId, down, path, n, before)
    ensures HitSays(repos, rows, repoId, down, path, n + 1,
                    if before.Some? then before
                    else if HasAt(repos, rows, repoId, down, path, n + 1)
                    then Some(RowAt(repos, rows, repoId, down, path, n + 1)) else None)
  {
    if before.Some? {
      var place: nat :| place <= n && FirstAt(repos, rows, repoId, down, path, place)
                        && RowAt(repos, rows, repoId, down, path, place) == before.value;
      assert place <= n + 1;
    } else if HasAt(repos, rows, repoId, down, path, n + 1) {
      assert FirstAt(repos, rows, repoId, down, path, n + 1);
    }
  }

  lemma {:induction false} HitUpTo(repos: Repos, rows: Rows, repoId: string, down: set<nat>, path: string, n: nat)
    requires IsGroup(repos, repoId) && n <= |repos.byId[repoId].members|
    ensures HitSays(repos, rows, repoId, down, path, n, FirstHit(rows, ChainUpTo(repos, repoId, down, n), path))
  {
    if n == 0 {
      WholeChain(repos, repoId, down);
      OwnHit(repos, rows, repoId, down, path);
    } else {
      var before := ChainUpTo(repos, repoId, down, n - 1);
      HitUpTo(repos, rows, repoId, down, path, n - 1);
      OnePlaceMore(repos, rows, repoId, down, path, n - 1, FirstHit(rows, before, path));
      ChainGrows(repos, repoId, down, n - 1);
      var who := Asked(repos, repoId, down, n);
      if who.Some? { HitWithOneMore(rows, before, who.value, path); } else { assert before + [] == before; }
    }
  }

  lemma OwnHit(repos: Repos, rows: Rows, repoId: string, down: set<nat>, path: string)
    ensures HitSays(repos, rows, repoId, down, path, 0, FirstHit(rows, [repoId], path))
  {
    DirectHitWins(rows, repoId, [repoId], path);
    if HasAt(repos, rows, repoId, down, path, 0) { assert FirstAt(repos, rows, repoId, down, path, 0); }
  }

  /** The first hit of the whole chain, by place. */
  lemma ChainHit(repos: Repos, rows: Rows, repoId: string, down: set<nat>, path: string)
    ensures var hit := FirstHit(rows, Chain(repos, repoId, down), path);
            && (hit.None? <==> Nowhere(repos, rows, repoId, down, path))
            && (forall place: nat :: FirstAt(repos, rows, repoId, down, path, place) ==>
                  hit == Some(RowAt(repos, rows, repoId, down, path, place)))
            && (hit.Some? ==> exists place: nat :: FirstAt(repos, rows, repoId, down, path, place))
  {
    WholeChain(repos, repoId, down);
    if IsGroup(repos, repoId) {
      HitUpTo(repos, rows, repoId, down, path, |repos.byId[repoId].members|);
    } else {
      OwnHit(repos, rows, repoId, down, path);
    }
  }

  /**
   What a point lookup returns, under any outage: the row at the first place that has the
   path, unless the group's own query fails, or the one for the group is needed and fails;
   "not found" exactly when both work and no place has it.
   */
  lemma ResolvesFirstPlace(repos: Repos, rows: Rows, repoId: string, path: string, f: Outage, a: Artifact)
    ensures ResolveUnder(repos, rows, repoId, path, f) == Ok(a) <==>
            && !f.direct
            && exists place: nat :: FirstAt(repos, rows, repoId, f.members, path, place)
                                    && RowAt(repos, rows, repoId, f.members, path, place) == a
                                    && (f.parent ==> place == 0)
    ensures ResolveUnder(repos, rows, repoId, path, f) == Err(NotFound) <==>
            !f.direct && !f.parent && Nowhere(repos, rows, repoId, f.members, path)
    ensures ResolveUnder(repos, rows, repoId, path, f) == Err(IoFailure) <==>
            f.direct || (f.parent && (repoId, path) !in rows)
  {
    ChainHit(repos, rows, repoId, f.members, path);
    assert HasAt(repos, rows, repoId, f.members, path, 0) <==> (repoId, path) in rows;
    if (repoId, path) in rows { assert FirstAt(repos, rows, repoId, f.members, path, 0); }
  }

  /**
   What a list lookup returns, under any outage: for every path that matches the pattern
   the row at its first place, once, and nothing else.
   */
  lemma ListsFirstPlaces(d: Dialect, repos: Repos, rows: Rows, repoId: string, prefix: string, f: Outage, a: Artifact)
    requires ValidRows(rows)
    ensures var list := ListUnder(d, repos, rows, repoId, prefix, f);
            && (if f.direct || f.parent then list == Err(IoFailure) else list.Ok?)
            && (list.Ok? ==>
                  && NoRepeatedPath(list.value)
                  && (a in list.value <==>
                        && MatchesPrefix(d, prefix, a.path)
                        && exists place: nat :: FirstAt(repos, rows, repoId, f.members, a.path, place)
                                                && RowAt(repos, rows, repoId, f.members, a.path, place) == a))
  {
    LookupsAgree(d, repos, rows, repoId, prefix, a, f);
    if !f.direct && !f.parent { ResolvesFirstPlace(repos, rows, repoId, a.path, f, a); }
  }

  // ---------------------------------------------------------------- the order of a list

  ghost predicate PathsAscend(items: seq<Artifact>, from: nat) {
    forall i, j :: from <= i < j < |items| ==> Lt(items[i].path, items[j].path)
  }

  lemma ListAscends(d: Dialect, rows: Rows, repoId: string, prefix: string)
    requires ValidRows(rows)
    ensures PathsAscend(ListByPrefix(d, rows, repoId, prefix), 0)
  {
    var paths := Sorted(MatchingPaths(d, rows, repoId, prefix));
    var items := ListByPrefix(d, rows, repoId, prefix);
    forall i | 0 <= i < |items| ensures items[i].path == paths[i] {
      assert paths[i] in paths;
    }
  }

  /** Appending unseen rows keeps what is there and adds, in their order, some of the others. */
  lemma {:induction false} AppendUnseenAscends(start: seq<Artifact>, items: seq<Artifact>)
    requires PathsAscend(items, 0)
    ensures var all := AppendUnseen(start, items);
            && start <= all && PathsAscend(all, |start|)
            && (forall k :: |start| <= k < |all| ==> all[k] in items && all[k].path !in PathsOf(start))
  {
    if items != [] {
      var n := |items| - 1;
      AppendUnseenAscends(start, items[..n]);
      var before, all := AppendUnseen(start, items[..n]), AppendUnseen(start, items);
      StartStays(start, before);
      forall k | |start| <= k < |all| ensures all[k] in items && all[k].path !in PathsOf(start) {
        if k < |before| { assert before[k] in items[..n]; }
      }
      forall i, j | |start| <= i < j < |all| ensures Lt(all[i].path, all[j].path) {
        if j == |before| {
          assert before[i] in items[..n];
          var m :| 0 <= m < n && items[..n][m] == before[i];
          assert Lt(items[m].path, items[n].path);
        }
      }
    }
  }

  lemma StartStays(start: seq<Artifact>, more: seq<Artifact>)
    requires start <= more
    ensures PathsOf(start) <= PathsOf(more)
  {
    forall p | p in PathsOf(start) ensures p in PathsOf(more) {
      var i :| 0 <= i < |start| && start[i].path == p;
      assert more[i].path == p;
    }
  }

  /** Rows of an earlier place come first, and rows of the same place in byte order of their paths. */
  ghost predicate InPlaceOrder(repos: Repos, rows: Rows, repoId: string, down: set<nat>, items: seq<Artifact>) {
    forall i, j, n: nat, m: nat ::
      0 <= i < j < |items| && FirstAt(repos, rows, repoId, down, items[i].path, n)
      && FirstAt(repos, rows, repoId, down, items[j].path, m) ==>
        n < m || (n == m && Lt(items[i].path, items[j].path))
  }

  /** Every row's path has its first place among the first `n + 1`. */
  ghost predicate PlacedBy(repos: Repos, rows: Rows, repoId: string, down: set<nat>, items: seq<Artifact>, n: nat) {
    forall i, place: nat ::
      0 <= i < |items| && FirstAt(repos, rows, repoId, down, items[i].path, place) ==> place <= n
  }

  lemma CombinedPlacedBy(d: Dialect, repos: Repos, rows: Rows, repoId: string, prefix: string, down: set<nat>, n: nat)
    requires ValidRows(rows) && IsGroup(repos, repoId) && n <= |repos.byId[repoId].members|
    ensures PlacedBy(repos, rows, repoId, down, Combined(d, rows, ChainUpTo(repos, repoId, down, n), prefix), n)
  {
    var chain := ChainUpTo(repos, repoId, down, n);
    var all := Combined(d, rows, chain, prefix);
    forall i, place: nat | 0 <= i < |all| && FirstAt(repos, rows, repoId, down, all[i].path, place)
      ensures place <= n
    {
      CombinedHolds(d, rows, chain, prefix, all[i]);
      HitUpTo(repos, rows, repoId, down, all[i].path, n);
    }
  }

  /** A row that member `n` adds has its first place there. */
  lemma AddedFirstHere(d: Dialect, repos: Repos, rows: Rows, repoId: string, prefix: string, down: set<nat>, n: nat,
                       a: Artifact, place: nat)
    requires ValidRows(rows) && IsGroup(repos, repoId) && n < |repos.byId[repoId].members|
    requires Asked(repos, repoId, down, n + 1).Some?
    requires a in ListByPrefix(d, rows, Asked(repos, repoId, down, n + 1).value, prefix)
    requires a.path !in PathsOf(Combined(d, rows, ChainUpTo(repos, repoId, down, n), prefix))
    requires FirstAt(repos, rows, repoId, down, a.path, place)
    ensures place == n + 1
  {
    var chain := ChainUpTo(repos, repoId, down, n);
    ListHolds(d, rows, Asked(repos, repoId, down, n + 1).value, prefix, a);
    CombinedHolds(d, rows, chain, prefix, a);
    HitUpTo(repos, rows, repoId, down, a.path, n);
    assert HasAt(repos, rows, repoId, down, a.path, n + 1);
  }

  lemma {:induction false} CombinedInPlaceOrder(d: Dialect, repos: Repos, rows: Rows, repoId: string, prefix: string,
                                                down: set<nat>, n: nat)
    requires ValidRows(rows) && IsGroup(repos, repoId) && n <= |repos.byId[repoId].members|
    ensures InPlaceOrder(repos, rows, repoId, down, Combined(d, rows, ChainUpTo(repos, repoId, down, n), prefix))
  {
    if n == 0 {
      WholeChain(repos, repoId, down);
      OwnInPlaceOrder(d, repos, rows, repoId, prefix, down);
      CombinedPlacedBy(d, repos, rows, repoId, prefix, down, 0);
    } else {
      CombinedInPlaceOrder(d, repos, rows, repoId, prefix, down, n - 1);
      MemberInPlaceOrder(d, repos, rows, repoId, prefix, down, n - 1);
    }
  }

  lemma OwnInPlaceOrder(d: Dialect, repos: Repos, rows: Rows, repoId: string, prefix: string, down: set<nat>)
    requires ValidRows(rows)
    ensures InPlaceOrder(repos, rows, repoId, down, Combined(d, rows, [repoId], prefix))
  {
    DirectListFirst(d, rows, repoId, prefix);
    ListAscends(d, rows, repoId, prefix);
    var items := ListByPrefix(d, rows, repoId, prefix);
    forall i | 0 <= i < |items| ensures HasAt(repos, rows, repoId, down, items[i].path, 0) {
      ListHolds(d, rows, repoId, prefix, items[i]);
    }
  }

  lemma MemberInPlaceOrder(d: Dialect, repos: Repos, rows: Rows, repoId: string, prefix: string, down: set<nat>, n: nat)
    requires ValidRows(rows) && IsGroup(repos, repoId) && n < |repos.byId[repoId].members|
    requires InPlaceOrder(repos, rows, repoId, down, Combined(d, rows, ChainUpTo(repos, repoId, down, n), prefix))
    ensures InPlaceOrder(repos, rows, repoId, down, Combined(d, rows, ChainUpTo(repos, repoId, down, n + 1), prefix))
  {
    var chain := ChainUpTo(repos, repoId, down, n);
    var who := Asked(repos, repoId, down, n + 1);
    ChainGrows(repos, repoId, down, n);
    if who.None? {
      assert chain + [] == chain;
    } else {
      var before, items := Combined(d, rows, chain, prefix), ListByPrefix(d, rows, who.value, prefix);
      CombinedWithOneMore(d, rows, chain, who.value, prefix);
      ListAscends(d, rows, who.value, prefix);
      AppendUnseenAscends(before, items);
      CombinedPlacedBy(d, repos, rows, repoId, prefix, down, n);
      forall i, place: nat | |before| <= i < |AppendUnseen(before, items)|
                             && FirstAt(repos, rows, repoId, down, AppendUnseen(before, items)[i].path, place)
        ensures place == n + 1
      {
        AddedFirstHere(d, repos, rows, repoId, prefix, down, n, AppendUnseen(before, items)[i], place);
      }
      StillInPlaceOrder(repos, rows, repoId, down, before, AppendUnseen(before, items), n);
    }
  }

  lemma CombinedWithOneMore(d: Dialect, rows: Rows, chain: seq<string>, id: string, prefix: string)
    ensures Combined(d, rows, chain + [id], prefix) ==
            AppendUnseen(Combined(d, rows, chain, prefix), ListByPrefix(d, rows, id, prefix))
  {
    LastAdded(chain, id);
    Takes(chain, [], id);
  }

  lemma StillInPlaceOrder(repos: Repos, rows: Rows, repoId: string, down: set<nat>, before: seq<Artifact>,
                          all: seq<Artifact>, n: nat)
    requires InPlaceOrder(repos, rows, repoId, down, before) && PlacedBy(repos, rows, repoId, down, before, n)
    requires before <= all && PathsAscend(all, |before|)
    requires forall i, place: nat :: |before| <= i < |all| && FirstAt(repos, rows, repoId, down, all[i].path, place) ==>
               place == n + 1
    ensures InPlaceOrder(repos, rows, repoId, down, all)
  {
    forall i, j, p: nat, q: nat | 0 <= i < j < |all| && FirstAt(repos, rows, repoId, down, all[i].path, p)
                                  && FirstAt(repos, rows, repoId, down, all[j].path, q)
      ensures p < q || (p == q && Lt(all[i].path, all[j].path))
    {
      if i < |before| { assert all[i] == before[i]; }
      if j < |before| { assert all[j] == before[j]; }
    }
  }

  /** A list goes through the places in order, and through the paths of each in byte order. */
  lemma ListIsInPlaceOrder(d: Dialect, repos: Repos, rows: Rows, repoId: string, prefix: string, f: Outage)
    requires ValidRows(rows)
    ensures var list := ListUnder(d, repos, rows, repoId, prefix, f);
            list.Ok? ==> InPlaceOrder(repos, rows, repoId, f.members, list.value)
  {
    WholeChain(repos, repoId, f.members);
    if IsGroup(repos, repoId) {
      CombinedInPlaceOrder(d, repos, rows, repoId, prefix, f.members, |repos.byId[repoId].members|);
    } else {
      OwnInPlaceOrder(d, repos, rows, repoId, prefix, f.members);
    }
  }
}
