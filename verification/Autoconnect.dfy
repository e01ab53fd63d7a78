/** Which profile a device that became available should bring up. */
module Autoconnect {
  import opened Wrappers
  import opened Devices

  type Better = (Profile, Profile) -> bool

  ghost predicate Orders(better: Better) {
    && (forall a, b :: better(a, b) ==> !better(b, a))
    && (forall a, b, c :: better(a, c) ==> better(a, b) || better(b, c))
  }

  // ---- Stable sorting ------------------------------------------------------------------

  function Insert(x: Profile, ys: seq<Profile>, better: Better): (r: seq<Profile>)
    ensures forall y :: y in r <==> y == x || y in ys
  {
    if ys == [] || !better(ys[0], x) then [x] + ys
    else
      assert ys == [ys[0]] + ys[1..];
      [ys[0]] + Insert(x, ys[1..], better)
  }

  /** Best first; what `better` does not separate keeps its order. */
  function StableSort(xs: seq<Profile>, better: Better): (r: seq<Profile>)
    ensures forall y :: y in r <==> y in xs
  {
    if xs == [] then []
    else
      assert xs == [xs[0]] + xs[1..];
      Insert(xs[0], StableSort(xs[1..], better), better)
  }

  function Keep(xs: seq<Profile>, wanted: Profile -> bool): (r: seq<Profile>)
    ensures forall y :: y in r <==> y in xs && wanted(y)
  {
    if xs == [] then []
    else
      assert xs == [xs[0]] + xs[1..];
      if wanted(xs[0]) then [xs[0]] + Keep(xs[1..], wanted) else Keep(xs[1..], wanted)
  }

  // ---- Selection -------------------------------------------------------------------------

  predicate Pinned(p: Profile, device: Device) { p.interface == Some(device.name) }

  predicate Matches(p: Profile, device: Device) {
    p.kind == device.kind && (p.interface.Some? ==> p.interface.value == device.name)
  }

  function Preferred(device: Device): Better {
    (a: Profile, b: Profile) =>
      if Pinned(a, device) != Pinned(b, device) then Pinned(a, device) else a.priority > b.priority
  }

  /** When each profile was last used, by id; unknown profiles count as never. */
  type Usage = string -> nat

  function RecentFirst(ps: seq<Profile>, used: Usage): seq<Profile> {
    StableSort(ps, (a: Profile, b: Profile) => used(a.id) > used(b.id))
  }

  function First(ps: seq<Profile>): Option<Profile> { if ps == [] then None else Some(ps[0]) }

  predicate EligibleWired(p: Profile, device: Device) { p.autoconnect && Matches(p, device) }

  predicate EligibleWifi(p: Profile, visible: seq<string>) {
    p.autoconnect && p.ssid.Some? && p.ssid.value in visible
  }

  function SelectWired(device: Device, sorted: seq<Profile>): Option<Profile> {
    First(StableSort(Keep(sorted, (p: Profile) => EligibleWired(p, device)), Preferred(device)))
  }

  function SelectWifi(sorted: seq<Profile>, visible: seq<string>): Option<Profile> {
    First(StableSort(Keep(sorted, (p: Profile) => EligibleWifi(p, visible)),
                     (a: Profile, b: Profile) => a.priority > b.priority))
  }

  // ---- What selection prefers --------------------------------------------------------------

  ghost predicate Descending(xs: seq<Profile>, used: Usage) {
    forall i, j :: 0 <= i < j < |xs| ==> used(xs[i].id) >= used(xs[j].id)
  }

  lemma {:induction false} InsertDescends(x: Profile, ys: seq<Profile>, used: Usage, better: Better)
    requires Descending(ys, used)
    requires forall a, b :: better(a, b) <==> used(a.id) > used(b.id)
    ensures Descending(Insert(x, ys, better), used)
  {
    if ys != [] && better(ys[0], x) {
      InsertDescends(x, ys[1..], used, better);
      var rest := Insert(x, ys[1..], better);
      forall j | 0 <= j < |rest| ensures used(ys[0].id) >= used(rest[j].id) {
        assert rest[j] in rest;
        assert rest[j] == x || rest[j] in ys[1..];
      }
    }
  }

  lemma {:induction false} SortDescends(xs: seq<Profile>, used: Usage, better: Better)
    requires forall a, b :: better(a, b) <==> used(a.id) > used(b.id)
    ensures Descending(StableSort(xs, better), used)
  {
    if xs != [] {
      SortDescends(xs[1..], used, better);
      InsertDescends(xs[0], StableSort(xs[1..], better), used, better);
    }
  }

  lemma {:induction false} KeepDescends(xs: seq<Profile>, wanted: Profile -> bool, used: Usage)
    requires Descending(xs, used)
    ensures Descending(Keep(xs, wanted), used)
  {
    if xs != [] {
      KeepDescends(xs[1..], wanted, used);
      var rest := Keep(xs[1..], wanted);
      forall j | 0 <= j < |rest| ensures used(xs[0].id) >= used(rest[j].id) {
        assert rest[j] in rest && rest[j] in xs[1..];
      }
    }
  }

  /** The head of a stable sort beats or ties everything, and wins its ties by having come first. */
  lemma {:induction false} HeadWins(xs: seq<Profile>, better: Better, used: Usage)
    requires Orders(better) && Descending(xs, used) && xs != []
    ensures var h := StableSort(xs, better);
            h != [] && forall x <- xs :: !better(x, h[0]) && (better(h[0], x) || used(h[0].id) >= used(x.id))
  {
    if |xs| > 1 {
      var tail := xs[1..];
      assert xs == [xs[0]] + tail;
      HeadWins(tail, better, used);
      var t := StableSort(tail, better)[0];
      var h := StableSort(xs, better)[0];
      assert h == if better(t, xs[0]) then t else xs[0];
      forall x | x in xs ensures !better(x, h) && (better(h, x) || used(h.id) >= used(x.id)) {
        if x in tail {
          assert !better(x, t);
          var i :| 0 <= i < |tail| && tail[i] == x;
          assert xs[i + 1] == x;
        }
      }
    } else {
      assert xs == [xs[0]] && xs[1..] == [];
    }
  }

  /** Pinned first, then higher priority, then most recently used; nothing exactly when nothing is eligible. */
  lemma WiredPrefers(device: Device, ps: seq<Profile>, used: Usage)
    ensures var r := SelectWired(device, RecentFirst(ps, used));
            && (r.None? <==> forall p <- ps :: !EligibleWired(p, device))
            && (r.Some? ==>
                  && r.value in ps && EligibleWired(r.value, device)
                  && forall p <- ps :: EligibleWired(p, device) ==>
                       && (Pinned(p, device) ==> Pinned(r.value, device))
                       && (Pinned(p, device) == Pinned(r.value, device) ==> p.priority <= r.value.priority)
                       && (Pinned(p, device) == Pinned(r.value, device) && p.priority == r.value.priority ==>
                             used(p.id) <= used(r.value.id)))
  {
    var sorted := RecentFirst(ps, used);
    SortDescends(ps, used, (a: Profile, b: Profile) => used(a.id) > used(b.id));
    var wanted := (p: Profile) => EligibleWired(p, device);
    KeepDescends(sorted, wanted, used);
    var xs := Keep(sorted, wanted);
    if xs != [] {
      HeadWins(xs, Preferred(device), used);
      var h := StableSort(xs, Preferred(device))[0];
      assert h in xs;
      forall p | p in ps && EligibleWired(p, device)
        ensures !Preferred(device)(p, h) && (Preferred(device)(h, p) || used(h.id) >= used(p.id)) {
        assert p in xs;
      }
    }
    forall p | p in ps && EligibleWired(p, device) ensures xs != [] { assert p in xs; }
  }

  /** Among the visible networks: higher priority, then most recently used. */
  lemma WifiPrefers(ps: seq<Profile>, used: Usage, visible: seq<string>)
    ensures var r := SelectWifi(RecentFirst(ps, used), visible);
            && (r.None? <==> forall p <- ps :: !EligibleWifi(p, visible))
            && (r.Some? ==>
                  && r.value in ps && EligibleWifi(r.value, visible)
                  && forall p <- ps :: EligibleWifi(p, visible) ==>
                       && p.priority <= r.value.priority
                       && (p.priority == r.value.priority ==> used(p.id) <= used(r.value.id)))
  {
    var sorted := RecentFirst(ps, used);
    SortDescends(ps, used, (a: Profile, b: Profile) => used(a.id) > used(b.id));
    var wanted := (p: Profile) => EligibleWifi(p, visible);
    var better := (a: Profile, b: Profile) => a.priority > b.priority;
    KeepDescends(sorted, wanted, used);
    var xs := Keep(sorted, wanted);
    if xs != [] {
      HeadWins(xs, better, used);
      var h := StableSort(xs, better)[0];
      assert h in xs;
      forall p | p in ps && EligibleWifi(p, visible)
        ensures !better(p, h) && (better(h, p) || used(h.id) >= used(p.id)) {
        assert p in xs;
      }
    }
    forall p | p in ps && EligibleWifi(p, visible) ensures xs != [] { assert p in xs; }
  }
}
