/** Hello timestamps. On the device, racing threads draw strictly increasing timestamps from one atomic
    by compare-and-exchange; on the hub, the in-memory device store accepts a Hello only if its timestamp
    is above the last one accepted, so that a recorded Hello cannot be replayed. */
module HelloClock {
  import opened Numbered

  const U64_MAX: nat := 0xFFFF_FFFF_FFFF_FFFF

  type Stamp = n: nat | n <= U64_MAX

  function SaturatingNext(a: Stamp): Stamp { if a < U64_MAX then a + 1 else a }

  // ---- The device: any number of threads in the compare-exchange loop ----

  /** `Ready(now)`: about to load, with this candidate; `Loaded`: about to compare and exchange. */
  datatype Thread = Ready(candidate: Stamp) | Loaded(candidate: Stamp, last: Stamp) | Returned(stamp: Stamp)

  /** `returned`: the timestamps handed out, in the order of the successful exchanges. */
  datatype Clock = Clock(cell: Stamp, threads: seq<Thread>, returned: seq<Stamp>)

  /** Thread `i` takes its next atomic step. */
  function Tick(c: Clock, i: nat): Clock {
    if i >= |c.threads| then c
    else match c.threads[i]
      case Ready(candidate) => c.(threads := c.threads[i := Loaded(candidate, c.cell)])
      case Loaded(candidate, last) =>
        var next := Max(candidate, SaturatingNext(last));
        if c.cell == last
        then Clock(next, c.threads[i := Returned(next)], c.returned + [next])
        else c.(threads := c.threads[i := Ready(Max(candidate, SaturatingNext(c.cell)))])
      case Returned(_) => c
  }

  function Ticks(c: Clock, schedule: seq<nat>): Clock
    decreases |schedule|
  {
    if schedule == [] then c else Ticks(Tick(c, schedule[0]), schedule[1..])
  }

  /** Each timestamp is above the one before, except that the last representable one repeats. */
  ghost predicate Climbing(returned: seq<Stamp>) {
    forall i | 0 <= i < |returned| - 1 ::
      if returned[i] < U64_MAX then returned[i] < returned[i + 1] else returned[i + 1] == U64_MAX
  }

  ghost predicate ClockInv(c: Clock) {
    Climbing(c.returned) && (c.returned != [] ==> c.cell == c.returned[|c.returned| - 1])
  }

  lemma {:induction false} TicksKeep(c: Clock, schedule: seq<nat>)
    requires ClockInv(c)
    ensures ClockInv(Ticks(c, schedule))
    decreases |schedule|
  {
    if schedule == [] {
    } else {
      TicksKeep(Tick(c, schedule[0]), schedule[1..]);
    }
  }

  lemma {:induction false} ClimbingMeans(returned: seq<Stamp>, i: nat, j: nat)
    requires Climbing(returned) && i < j < |returned|
    ensures returned[i] < U64_MAX ==> returned[i] < returned[j]
    ensures returned[i] == U64_MAX ==> returned[j] == U64_MAX
    decreases j
  {
    if i < j - 1 { ClimbingMeans(returned, i, j - 1); }
  }

  /** However the threads race, timestamps strictly increase in exchange order, as long as they stay below
      the largest representable one; from there on they can only repeat it. */
  lemma StampsStrictlyIncrease(cell: Stamp, now: seq<Stamp>, schedule: seq<nat>, i: nat, j: nat)
    requires var start := seq(|now|, k requires 0 <= k < |now| => Ready(now[k]));
             i < j < |Ticks(Clock(cell, start, []), schedule).returned|
    ensures var start := seq(|now|, k requires 0 <= k < |now| => Ready(now[k]));
            var out := Ticks(Clock(cell, start, []), schedule).returned;
            out[i] < out[j] <==> out[i] < U64_MAX
  {
    var start := seq(|now|, k requires 0 <= k < |now| => Ready(now[k]));
    TicksKeep(Clock(cell, start, []), schedule);
    ClimbingMeans(Ticks(Clock(cell, start, []), schedule).returned, i, j);
  }

  ghost predicate Candidates(c: Clock, now: seq<Stamp>) {
    && |c.threads| == |now|
    && forall k | 0 <= k < |now| && !c.threads[k].Returned? ::
         now[k] <= c.threads[k].candidate <= Max(now[k], SaturatingNext(c.cell))
  }

  lemma {:induction false} TicksKeepCandidates(c: Clock, now: seq<Stamp>, schedule: seq<nat>)
    requires Candidates(c, now)
    ensures Candidates(Ticks(c, schedule), now)
    decreases |schedule|
  {
    if schedule == [] {
    } else {
      TicksKeepCandidates(Tick(c, schedule[0]), now, schedule[1..]);
    }
  }

  /** After any race, the next timestamp drawn is the thread's clock or just above the one drawn last, whichever
      is later, however often that thread lost the exchange before. */
  lemma NextStampIsClockOrNext(cell: Stamp, now: seq<Stamp>, schedule: seq<nat>, i: nat)
    ensures var start := seq(|now|, k requires 0 <= k < |now| => Ready(now[k]));
            var c := Ticks(Clock(cell, start, []), schedule);
            var before := if c.returned == [] then cell else c.returned[|c.returned| - 1];
            var t := Tick(c, i);
            t.returned == c.returned
            || (i < |now| && t.returned == c.returned + [Max(now[i], SaturatingNext(before))])
  {
    var start := seq(|now|, k requires 0 <= k < |now| => Ready(now[k]));
    TicksKeepCandidates(Clock(cell, start, []), now, schedule);
    CellIsLast(Clock(cell, start, []), schedule, cell);
  }

  lemma {:induction false} CellIsLast(c: Clock, schedule: seq<nat>, first: Stamp)
    requires c.cell == if c.returned == [] then first else c.returned[|c.returned| - 1]
    ensures var t := Ticks(c, schedule); t.cell == if t.returned == [] then first else t.returned[|t.returned| - 1]
    decreases |schedule|
  {
    if schedule == [] {
    } else {
      CellIsLast(Tick(c, schedule[0]), schedule[1..], first);
    }
  }

  /** The values the atomic takes never fall. */
  ghost predicate Rising(cell: Stamp, values: seq<Stamp>)
    decreases |values|
  {
    values == [] || (cell <= values[0] && Rising(values[0], values[1..]))
  }

  /** The loop that one thread runs. `others` is what the other threads leave in the atomic between this
      thread's load and its exchange, attempt by attempt. */
  class Identity {
    var lastHelloSignedAtMs: Stamp

    constructor ()
      ensures lastHelloSignedAtMs == 0
    {
      lastHelloSignedAtMs := 0;
    }

    method CompareExchange(expected: Stamp, next: Stamp) returns (ok: bool, observed: Stamp)
      modifies this
      ensures observed == old(lastHelloSignedAtMs) && ok == (observed == expected)
      ensures lastHelloSignedAtMs == if ok then next else observed
    {
      observed := lastHelloSignedAtMs;
      ok := observed == expected;
      if ok { lastHelloSignedAtMs := next; }
    }

    /** However often the exchange fails, the result is the clock or just above `replaced`, the value it
        took the place of, whichever is later: retries leave no trace. */
    method NextHelloSignedAtMs(now: Stamp, others: seq<Stamp>) returns (stamp: Stamp, replaced: Stamp)
      requires Rising(lastHelloSignedAtMs, others)
      modifies this
      ensures replaced == old(lastHelloSignedAtMs) || replaced in others
      ensures lastHelloSignedAtMs == stamp == Max(now, SaturatingNext(replaced))
      ensures stamp > replaced <==> replaced < U64_MAX
    {
      var candidate := now;
      var pending := others;
      while true
        invariant now <= candidate <= Max(now, SaturatingNext(lastHelloSignedAtMs))
        invariant Rising(lastHelloSignedAtMs, pending)
        invariant lastHelloSignedAtMs == old(lastHelloSignedAtMs) || lastHelloSignedAtMs in others
        invariant forall x | x in pending :: x in others
        decreases |pending|
      {
        var last := lastHelloSignedAtMs;
        var next := Max(candidate, SaturatingNext(last));
        if pending != [] {
          lastHelloSignedAtMs, pending := pending[0], pending[1..];
        }
        var ok, observed := CompareExchange(last, next);
        if ok { return next, last; }
        candidate := Max(candidate, SaturatingNext(observed));
      }
    }
  }

  // ---- The hub ----

  type Device = string
  type Key = string

  /** A Hello whose signature verified: `allow` when it came with a bootstrap token. */
  datatype Verified = Verified(key: Key, signedAt: nat, allow: bool)

  datatype Stored = Stored(key: Option<Key>, lastSignedAt: nat)

  /** `accepted`: the timestamps accepted for each device since it was last created. */
  datatype Store = Store(devices: map<Device, Stored>, accepted: map<Device, seq<nat>>)

  datatype Call =
    | Hello(device: Device, v: Verified)
    | Insert(device: Device, initial: Option<Key>)
    | PreRegister(device: Device, key: Key)
    | Delete(device: Device)

  predicate KeyAccepted(s: Stored, v: Verified) {
    if v.allow then s.key.None? else s.key == Some(v.key)
  }

  predicate Accepts(st: Store, device: Device, v: Verified) {
    device in st.devices && KeyAccepted(st.devices[device], v) && v.signedAt > st.devices[device].lastSignedAt
  }

  /** The key of a first registration is stored before the timestamp is looked at. */
  function HelloStored(s: Stored, v: Verified): Stored {
    if !KeyAccepted(s, v) then s
    else if v.signedAt <= s.lastSignedAt then s.(key := Some(v.key))
    else Stored(Some(v.key), v.signedAt)
  }

  function Next(st: Store, c: Call): Store {
    match c
    case Hello(device, v) =>
      if device !in st.devices then st
      else st.(devices := st.devices[device := HelloStored(st.devices[device], v)],
               accepted := if Accepts(st, device, v) && device in st.accepted
                           then st.accepted[device := st.accepted[device] + [v.signedAt]] else st.accepted)
    case Insert(device, key) =>
      if device in st.devices then st
      else Store(st.devices[device := Stored(key, 0)], st.accepted[device := []])
    case PreRegister(device, key) =>
      if device in st.devices then st.(devices := st.devices[device := st.devices[device].(key := Some(key))])
      else Store(st.devices[device := Stored(Some(key), 0)], st.accepted[device := []])
    case Delete(device) => Store(st.devices - {device}, st.accepted - {device})
  }

  class MemoryDevices {
    var devices: map<Device, Stored>
    ghost var accepted: map<Device, seq<nat>>

    ghost function Model(): Store
      reads this
    {
      Store(devices, accepted)
    }

    constructor ()
      ensures Model() == Store(map[], map[])
    {
      devices, accepted := map[], map[];
    }

    method AcceptVerifiedHello(device: Device, v: Verified) returns (ok: bool)
      modifies this
      ensures Model() == Next(old(Model()), Hello(device, v)) && ok == Accepts(old(Model()), device, v)
      ensures ok ==> && device in old(devices) && devices == old(devices)[device := Stored(Some(v.key), v.signedAt)]
                     && (if v.allow then old(devices)[device].key.None? else old(devices)[device].key == Some(v.key))
    {
      if device !in devices { return false; }
      var stored := devices[device];
      if v.allow && stored.key.None? {
        stored := stored.(key := Some(v.key));
      } else if v.allow || stored.key != Some(v.key) {
        assert devices == devices[device := stored];
        return false;
      }
      if v.signedAt <= stored.lastSignedAt {
        devices := devices[device := stored];
        return false;
      }
      devices := devices[device := stored.(lastSignedAt := v.signedAt)];
      if device in accepted { accepted := accepted[device := accepted[device] + [v.signedAt]]; }
      ok := true;
    }

    method InsertDevice(device: Device, key: Option<Key>) returns (ok: bool)
      modifies this
      ensures Model() == Next(old(Model()), Insert(device, key)) && ok == (device !in old(devices))
    {
      if device in devices { return false; }
      devices, accepted := devices[device := Stored(key, 0)], accepted[device := []];
      ok := true;
    }

    method DeleteDevice(device: Device)
      modifies this
      ensures Model() == Next(old(Model()), Delete(device))
    {
      devices, accepted := devices - {device}, accepted - {device};
    }
  }

  function Run(st: Store, cs: seq<Call>): Store
    decreases |cs|
  {
    if cs == [] then st else Run(Next(st, cs[0]), cs[1..])
  }

  ghost predicate Increasing(ns: seq<nat>) { forall i, j | 0 <= i < j < |ns| :: ns[i] < ns[j] }

  ghost predicate Tracks(s: Stored, ns: seq<nat>) {
    Increasing(ns) && s.lastSignedAt == if ns == [] then 0 else ns[|ns| - 1]
  }

  ghost predicate StoreInv(st: Store) {
    && st.devices.Keys == st.accepted.Keys
    && forall d | d in st.devices :: Tracks(st.devices[d], st.accepted[d])
  }

  lemma {:induction false} RunKeeps(st: Store, cs: seq<Call>)
    requires StoreInv(st)
    ensures StoreInv(Run(st, cs))
    decreases |cs|
  {
    if cs == [] {
    } else {
      RunKeeps(Next(st, cs[0]), cs[1..]);
    }
  }

  lemma NewerThanAll(s: Stored, ns: seq<nat>, n: nat)
    requires Tracks(s, ns)
    ensures n > s.lastSignedAt <==> n > 0 && forall m | m in ns :: n > m
  {
    if ns != [] { assert ns[|ns| - 1] in ns; }
    forall m | m in ns ensures m <= s.lastSignedAt { var i :| 0 <= i < |ns| && ns[i] == m; }
  }

  /** The timestamps accepted for a device strictly increase until it is deleted. A Hello is accepted
      exactly when it is newer than all of them and its key fits: a registration needs a device without a
      key, any other Hello the stored one. So none is accepted twice, and none that comes in order is
      refused as a replay. */
  lemma AcceptedExactlyWhenNewer(cs: seq<Call>, device: Device, v: Verified)
    requires device in Run(Store(map[], map[]), cs).devices
    ensures var st := Run(Store(map[], map[]), cs);
            && device in st.accepted && Increasing(st.accepted[device])
            && (Accepts(st, device, v) <==>
                  && (v.allow ==> st.devices[device].key == None)
                  && (!v.allow ==> st.devices[device].key == Some(v.key))
                  && v.signedAt > 0 && forall n | n in st.accepted[device] :: v.signedAt > n)
  {
    RunKeeps(Store(map[], map[]), cs);
    var st := Run(Store(map[], map[]), cs);
    NewerThanAll(st.devices[device], st.accepted[device], v.signedAt);
  }

  ghost predicate Keeps(device: Device, cs: seq<Call>) { forall i | 0 <= i < |cs| :: cs[i] != Delete(device) }

  lemma {:induction false} LastSignedAtGrows(st: Store, device: Device, cs: seq<Call>)
    requires device in st.devices && Keeps(device, cs)
    ensures device in Run(st, cs).devices
    ensures Run(st, cs).devices[device].lastSignedAt >= st.devices[device].lastSignedAt
    decreases |cs|
  {
    if cs == [] {
    } else {
      LastSignedAtGrows(Next(st, cs[0]), device, cs[1..]);
    }
  }

  /** Once a Hello was accepted, no Hello with its timestamp or an older one is, whatever happens in
      between short of deleting the device. */
  lemma AcceptedHelloCannotBeReplayed(st: Store, device: Device, v: Verified, more: seq<Call>, again: Verified)
    requires Accepts(st, device, v) && Keeps(device, more) && again.signedAt <= v.signedAt
    ensures !Accepts(Run(Next(st, Hello(device, v)), more), device, again)
  {
    LastSignedAtGrows(Next(st, Hello(device, v)), device, more);
  }

  ghost predicate KeepsKey(device: Device, cs: seq<Call>) {
    Keeps(device, cs) && forall i | 0 <= i < |cs| :: !(cs[i].PreRegister? && cs[i].device == device)
  }

  lemma {:induction false} KeyStays(st: Store, device: Device, cs: seq<Call>)
    requires device in st.devices && st.devices[device].key.Some? && KeepsKey(device, cs)
    ensures device in Run(st, cs).devices && Run(st, cs).devices[device].key == st.devices[device].key
    decreases |cs|
  {
    if cs == [] {
    } else {
      KeyStays(Next(st, cs[0]), device, cs[1..]);
    }
  }

  /** The call that binds a device to a key: an accepted Hello, a pre-registration, or its creation with a key. */
  ghost predicate Binds(st: Store, c: Call, device: Device, key: Key) {
    || (c.Hello? && c.device == device && c.v.key == key && Accepts(st, device, c.v))
    || c == PreRegister(device, key)
    || (c == Insert(device, Some(key)) && device !in st.devices)
  }

  lemma BindingStores(st: Store, c: Call, device: Device, key: Key)
    requires Binds(st, c, device, key)
    ensures device in Next(st, c).devices && Next(st, c).devices[device].key == Some(key)
  {
  }

  /** From then on, until an administrator deletes or pre-registers the device again, a Hello is accepted exactly
      when it is no registration, has that key and is newer than everything accepted. */
  lemma BoundKeyIsTheOnlyOne(cs: seq<Call>, c: Call, device: Device, key: Key, more: seq<Call>, w: Verified)
    requires Binds(Run(Store(map[], map[]), cs), c, device, key) && KeepsKey(device, more)
    ensures var t := Run(Next(Run(Store(map[], map[]), cs), c), more);
            && device in t.accepted
            && (Accepts(t, device, w) <==>
                  !w.allow && w.key == key && w.signedAt > 0 && forall n | n in t.accepted[device] :: w.signedAt > n)
  {
    var st := Run(Store(map[], map[]), cs);
    RunKeeps(Store(map[], map[]), cs);
    RunKeeps(st, [c]);
    assert Run(st, [c]) == Next(st, c);
    BindingStores(st, c, device, key);
    KeyStays(Next(st, c), device, more);
    RunKeeps(Next(st, c), more);
    var t := Run(Next(st, c), more);
    NewerThanAll(t.devices[device], t.accepted[device], w.signedAt);
  }

  /** A device without a key has accepted nothing yet. */
  ghost predicate KeyFirst(st: Store) { forall d | d in st.devices && st.devices[d].key.None? :: st.devices[d].lastSignedAt == 0 }

  lemma {:induction false} KeyFirstRun(st: Store, cs: seq<Call>)
    requires KeyFirst(st)
    ensures KeyFirst(Run(st, cs))
    decreases |cs|
  {
    if cs == [] {
    } else {
      KeyFirstRun(Next(st, cs[0]), cs[1..]);
    }
  }

  /** In every reachable state a refused Hello leaves the device unchanged, except in one case: a first
      registration with timestamp zero is refused and yet binds its key. */
  lemma RefusedHelloChangesNothingExactlyWhen(cs: seq<Call>, device: Device, v: Verified)
    requires var st := Run(Store(map[], map[]), cs); device in st.devices && !Accepts(st, device, v)
    ensures var st := Run(Store(map[], map[]), cs);
            Next(st, Hello(device, v)).devices == st.devices
            <==> !(v.allow && st.devices[device].key.None? && v.signedAt == 0)
  {
    KeyFirstRun(Store(map[], map[]), cs);
    var st := Run(Store(map[], map[]), cs);
    var t := Next(st, Hello(device, v));
    assert t.devices[device] == HelloStored(st.devices[device], v);
    if HelloStored(st.devices[device], v) == st.devices[device] { assert t.devices == st.devices; }
  }

  /** The age check that every Hello passes before it gets here; the subtraction and the sum saturate. */
  predicate AgeAccepted(now: Stamp, signedAt: Stamp, maxAge: Stamp): (ok: bool)
    ensures ok <==> now - maxAge <= signedAt <= now + maxAge
  {
    var age: int := if now < signedAt then 0 else now - signedAt;
    var latest: int := if now + maxAge > U64_MAX then U64_MAX else now + maxAge;
    age <= maxAge && signedAt <= latest
  }

  /** The age check excludes that case whenever the clock is past the maximum age: then a refused Hello
      changes nothing at all. */
  lemma CheckedHelloChangesNothingWhenRefused(cs: seq<Call>, device: Device, v: Verified, now: Stamp, maxAge: Stamp)
    requires v.signedAt <= U64_MAX && AgeAccepted(now, v.signedAt, maxAge) && now > maxAge
    requires !Accepts(Run(Store(map[], map[]), cs), device, v)
    ensures Next(Run(Store(map[], map[]), cs), Hello(device, v)).devices == Run(Store(map[], map[]), cs).devices
  {
    if device in Run(Store(map[], map[]), cs).devices {
      RefusedHelloChangesNothingExactlyWhen(cs, device, v);
    }
  }
}
