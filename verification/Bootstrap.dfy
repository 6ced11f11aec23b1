/** Bootstrap tokens: one live token per device, reserved during a handshake and then consumed once.
    The in-memory form keeps two maps under a lock; the Redis form keeps three kinds of keys and runs
    scripts. Random draws (tokens, reservation ids) are parameters. */
module Bootstrap {
  import opened Numbered

  type Token = string
  type Device = string
  type Rid = string

  datatype Reservation = Reservation(token: Token, device: Device, rid: Rid)

  datatype Bound = Bound(device: Device, rid: Option<Rid>)

  datatype Memory = Memory(byToken: map<Token, Bound>, byDevice: map<Device, Token>)

  /** A token is drawn at most this often. */
  const ATTEMPTS: nat := 4

  // ---- The in-memory form ----

  function Forgotten(m: Memory, device: Device): Memory {
    if device in m.byDevice
    then Memory(m.byToken - {m.byDevice[device]}, m.byDevice - {device}) else m
  }

  /** The first draw that is not taken. */
  function Pick(taken: set<Token>, draws: seq<Token>): Option<Token> {
    if draws == [] then None else if draws[0] !in taken then Some(draws[0]) else Pick(taken, draws[1..])
  }

  function Issued(m: Memory, device: Device, draws: seq<Token>): Memory {
    var clean := Forgotten(m, device);
    match Pick(clean.byToken.Keys, draws)
    case None => clean
    case Some(token) => Memory(clean.byToken[token := Bound(device, None)], clean.byDevice[device := token])
  }

  predicate Reservable(m: Memory, device: Device, token: Token) {
    token in m.byToken && m.byToken[token] == Bound(device, None)
  }

  function Reserved(m: Memory, device: Device, token: Token, rid: Rid): Memory {
    if Reservable(m, device, token) then m.(byToken := m.byToken[token := Bound(device, Some(rid))]) else m
  }

  predicate Holds(m: Memory, r: Reservation) { r.token in m.byToken && m.byToken[r.token].rid == Some(r.rid) }

  function Released(m: Memory, r: Reservation): Memory {
    if Holds(m, r) then m.(byToken := m.byToken[r.token := m.byToken[r.token].(rid := None)]) else m
  }

  predicate Consumable(m: Memory, r: Reservation) { Holds(m, r) && m.byToken[r.token].device == r.device }

  function Consumed(m: Memory, r: Reservation): Memory {
    if Consumable(m, r) then Memory(m.byToken - {r.token}, m.byDevice - {r.device}) else m
  }

  class Credentials {
    var byToken: map<Token, Bound>
    var byDevice: map<Device, Token>

    ghost function Model(): Memory
      reads this
    {
      Memory(byToken, byDevice)
    }

    constructor ()
      ensures Model() == Memory(map[], map[])
    {
      byToken, byDevice := map[], map[];
    }

    method DeleteDevice(device: Device)
      modifies this
      ensures Model() == Forgotten(old(Model()), device)
    {
      if device in byDevice {
        byToken := byToken - {byDevice[device]};
        byDevice := byDevice - {device};
      }
    }

    method Issue(device: Device, draws: seq<Token>) returns (r: Option<Token>)
      requires |draws| == ATTEMPTS
      modifies this
      ensures Model() == Issued(old(Model()), device, draws)
      ensures r == Pick(Forgotten(old(Model()), device).byToken.Keys, draws)
    {
      DeleteDevice(device);
      ghost var clean := Model();
      for i := 0 to ATTEMPTS
        invariant Model() == clean
        invariant Pick(clean.byToken.Keys, draws) == Pick(clean.byToken.Keys, draws[i..])
      {
        if draws[i] !in byToken {
          byDevice := byDevice[device := draws[i]];
          byToken := byToken[draws[i] := Bound(device, None)];
          return Some(draws[i]);
        }
      }
      r := None;
    }

    method Reserve(device: Device, token: Token, rid: Rid) returns (r: Option<Reservation>)
      modifies this`byToken
      ensures Model() == Reserved(old(Model()), device, token, rid)
      ensures r == if Reservable(old(Model()), device, token) then Some(Reservation(token, device, rid)) else None
    {
      if token !in byToken { return None; }
      if byToken[token].device != device || byToken[token].rid.Some? { return None; }
      byToken := byToken[token := Bound(device, Some(rid))];
      r := Some(Reservation(token, device, rid));
    }

    method Release(r: Reservation)
      modifies this`byToken
      ensures Model() == Released(old(Model()), r)
    {
      if r.token in byToken && byToken[r.token].rid == Some(r.rid) {
        byToken := byToken[r.token := Bound(byToken[r.token].device, None)];
      }
    }

    method Consume(r: Reservation)
      modifies this
      ensures Model() == Consumed(old(Model()), r)
    {
      if r.token in byToken && byToken[r.token].device == r.device && byToken[r.token].rid == Some(r.rid) {
        byToken := byToken - {r.token};
        byDevice := byDevice - {r.device};
      }
    }
  }

  // ---- Runs ----

  datatype Call =
    | Issue(device: Device, draws: seq<Token>)
    | Reserve(device: Device, token: Token, rid: Rid)
    | Release(r: Reservation)
    | Consume(r: Reservation)
    | DeleteDevice(device: Device)

  /** `drawn`: reservation ids already drawn (they never repeat); `handed`: reservations handed out by `reserve`,
      which are the only ones a caller can consume; `spent`: effective consumptions. */
  datatype History = History(m: Memory, drawn: set<Rid>, handed: set<Reservation>, spent: seq<Reservation>)

  function Init(): History { History(Memory(map[], map[]), {}, {}, []) }

  function Next(h: History, c: Call): History {
    match c
    case Issue(device, draws) => h.(m := Issued(h.m, device, draws))
    case Reserve(device, token, rid) =>
      if rid in h.drawn then h
      else h.(m := Reserved(h.m, device, token, rid), drawn := h.drawn + {rid},
              handed := if Reservable(h.m, device, token) then h.handed + {Reservation(token, device, rid)} else h.handed)
    case Release(r) => h.(m := Released(h.m, r))
    case Consume(r) =>
      if r !in h.handed then h
      else h.(m := Consumed(h.m, r), spent := if Consumable(h.m, r) then h.spent + [r] else h.spent)
    case DeleteDevice(device) => h.(m := Forgotten(h.m, device))
  }

  function Run(h: History, cs: seq<Call>): History
    decreases |cs|
  {
    if cs == [] then h else Run(Next(h, cs[0]), cs[1..])
  }

  ghost predicate OneToOne(m: Memory) {
    && (forall d | d in m.byDevice :: m.byDevice[d] in m.byToken && m.byToken[m.byDevice[d]].device == d)
    && (forall t | t in m.byToken :: m.byToken[t].device in m.byDevice && m.byDevice[m.byToken[t].device] == t)
  }

  lemma {:induction false} PickIsFree(taken: set<Token>, draws: seq<Token>)
    ensures Pick(taken, draws).Some? ==> Pick(taken, draws).value !in taken && Pick(taken, draws).value in draws
    ensures Pick(taken, draws).None? ==> forall t | t in draws :: t in taken
  {
    if draws == [] {
    } else {
      assert draws == [draws[0]] + draws[1..];
      PickIsFree(taken, draws[1..]);
    }
  }

  lemma OneToOneIssue(m: Memory, device: Device, draws: seq<Token>)
    requires OneToOne(m)
    ensures OneToOne(Issued(m, device, draws))
  {
    var clean := Forgotten(m, device);
    PickIsFree(clean.byToken.Keys, draws);
    assert OneToOne(clean) && device !in clean.byDevice;
  }

  /** Nothing in the store answers to this reservation. */
  ghost predicate Inert(m: Memory, r: Reservation) { !Holds(m, r) }

  ghost predicate Inv(h: History) {
    && OneToOne(h.m)
    && (forall t | t in h.m.byToken && h.m.byToken[t].rid.Some? :: h.m.byToken[t].rid.value in h.drawn)
    && (forall r | r in h.spent :: r.rid in h.drawn && Inert(h.m, r))
    && (forall i, j | 0 <= i < j < |h.spent| :: h.spent[i] != h.spent[j])
  }

  /** Reservations handed out are told apart by their ids, and what the store holds was handed out. */
  ghost predicate Tracked(h: History) {
    && (forall r | r in h.handed :: r.rid in h.drawn)
    && (forall r, q | r in h.handed && q in h.handed && r.rid == q.rid :: r == q)
    && (forall t | t in h.m.byToken && h.m.byToken[t].rid.Some? ::
          Reservation(t, h.m.byToken[t].device, h.m.byToken[t].rid.value) in h.handed)
  }

  lemma TrackedStep(h: History, c: Call)
    requires Tracked(h)
    ensures Tracked(Next(h, c))
  {
  }

  lemma IssueKeeps(h: History, device: Device, draws: seq<Token>)
    requires Inv(h)
    ensures Inv(Next(h, Issue(device, draws)))
  {
    OneToOneIssue(h.m, device, draws);
  }

  lemma StepKeeps(h: History, c: Call)
    requires Inv(h)
    ensures Inv(Next(h, c))
  {
    match c
    case Issue(device, draws) => IssueKeeps(h, device, draws);
    case Consume(r) => ConsumeKeeps(h, r);
    case _ =>
  }

  lemma ConsumeKeeps(h: History, r: Reservation)
    requires Inv(h)
    ensures Inv(Next(h, Consume(r)))
  {
  }

  lemma {:induction false} RunKeeps(h: History, cs: seq<Call>)
    requires Inv(h) && Tracked(h)
    ensures Inv(Run(h, cs)) == Inv(h) && Tracked(Run(h, cs)) == Tracked(h)
    decreases |cs|
  {
    if cs == [] {
    } else {
      StepKeeps(h, cs[0]);
      TrackedStep(h, cs[0]);
      RunKeeps(Next(h, cs[0]), cs[1..]);
    }
  }

  /** In every reachable state tokens and devices correspond one to one. */
  lemma TokensAndDevicesCorrespond(cs: seq<Call>)
    ensures OneToOne(Run(Init(), cs).m)
  {
    RunKeeps(Init(), cs);
  }

  /** No reservation is ever effectively consumed twice, and each consumption was by the one reservation
      that held the token; afterwards the token is gone. */
  lemma ConsumedAtMostOnce(cs: seq<Call>, r: Reservation)
    ensures var h := Run(Init(), cs);
            && (forall i, j | 0 <= i < j < |h.spent| :: h.spent[i] != h.spent[j])
            && (Consumable(h.m, r) ==> r !in h.spent && r.token !in Next(h, Consume(r)).m.byToken)
  {
    RunKeeps(Init(), cs);
  }

  lemma {:induction false} InertForever(h: History, r: Reservation, cs: seq<Call>)
    requires r.rid in h.drawn && Inert(h.m, r)
    ensures Inert(Run(h, cs).m, r)
    decreases |cs|
  {
    if cs == [] {
    } else {
      InertForever(Next(h, cs[0]), r, cs[1..]);
    }
  }

  /** Calls that do not concern a reservation: they end neither it nor the token of its device. */
  predicate LeavesAlone(c: Call, r: Reservation) {
    match c
    case Issue(device, _) => device != r.device
    case Reserve(_, _, _) => true
    case Release(q) => q.token != r.token || q.rid != r.rid
    case Consume(q) => q.token != r.token || q.rid != r.rid
    case DeleteDevice(device) => device != r.device
  }

  /** A reservation is exclusive: whatever else is issued, reserved, released, consumed or deleted, nobody takes
      the token over, and its holder can still consume it. */
  lemma {:induction false} HolderKeepsReservation(h: History, r: Reservation, cs: seq<Call>)
    requires Inv(h) && Consumable(h.m, r) && forall c | c in cs :: LeavesAlone(c, r)
    ensures Consumable(Run(h, cs).m, r) == Consumable(h.m, r)
    decreases |cs|
  {
    if cs == [] {
    } else {
      var c := cs[0];
      assert c in cs;
      if c.Issue? { PickIsFree(Forgotten(h.m, c.device).byToken.Keys, c.draws); }
      StepKeeps(h, c);
      HolderKeepsReservation(Next(h, c), r, cs[1..]);
    }
  }

  /** Consuming, releasing, re-issuing for the device or deleting the device makes an outstanding
      reservation inert, for every continuation. */
  lemma EndedReservationStaysInert(cs: seq<Call>, r: Reservation, c: Call, more: seq<Call>)
    requires Consumable(Run(Init(), cs).m, r)
    requires c == Consume(r) || c == Release(r) || c == DeleteDevice(r.device) || (c.Issue? && c.device == r.device)
    ensures var h := Run(Next(Run(Init(), cs), c), more);
            && Inert(h.m, r)
            && Consumed(h.m, r) == h.m && Released(h.m, r) == h.m
  {
    var h := Run(Init(), cs);
    RunKeeps(Init(), cs);
    var t := Next(h, c);
    if c.Issue? { PickIsFree(Forgotten(h.m, c.device).byToken.Keys, c.draws); }
    assert Inert(t.m, r);
    InertForever(t, r, more);
  }

  // ---- The Redis form ----

  /** The keys of each kind: token to device, token to reservation lock, device to token. */
  datatype Redis = Redis(tokens: map<Token, Device>, locks: map<Token, Rid>, devices: map<Device, Token>)

  function RedisForget(s: Redis, token: Token): Redis { s.(tokens := s.tokens - {token}, locks := s.locks - {token}) }

  /** The issue script, once per draw until one is free. */
  function RedisDraw(s: Redis, device: Device, draws: seq<Token>): Redis
    decreases |draws|
  {
    if draws == [] then s
    else if draws[0] in s.tokens then RedisDraw(s, device, draws[1..])
    else
      var t := if device in s.devices then RedisForget(s, s.devices[device]) else s;
      t.(tokens := t.tokens[draws[0] := device], devices := t.devices[device := draws[0]])
  }

  /** When every draw is taken the device key stays behind and names a deleted token. */
  function RedisIssued(s: Redis, device: Device, draws: seq<Token>): Redis {
    RedisDraw(if device in s.devices then RedisForget(s, s.devices[device]) else s, device, draws)
  }

  function RedisReserved(s: Redis, device: Device, token: Token, rid: Rid): Redis {
    if token in s.tokens && s.tokens[token] == device && token !in s.locks
    then s.(locks := s.locks[token := rid]) else s
  }

  function RedisReleased(s: Redis, r: Reservation): Redis {
    if r.token in s.locks && s.locks[r.token] == r.rid then s.(locks := s.locks - {r.token}) else s
  }

  /** Checks the lock only, not the device. */
  function RedisConsumed(s: Redis, r: Reservation): Redis {
    if r.token in s.locks && s.locks[r.token] == r.rid
    then Redis(s.tokens - {r.token}, s.locks - {r.token}, s.devices - {r.device}) else s
  }

  function RedisDeleted(s: Redis, device: Device): Redis {
    if device !in s.devices then s
    else
      var t := RedisForget(s, s.devices[device]);
      t.(devices := t.devices - {device})
  }

  /** The same calls, with the same ids drawn and reservations handed out. */
  function RedisNext(s: Redis, h: History, c: Call): Redis {
    match c
    case Issue(device, draws) => RedisIssued(s, device, draws)
    case Reserve(device, token, rid) => if rid in h.drawn then s else RedisReserved(s, device, token, rid)
    case Release(r) => RedisReleased(s, r)
    case Consume(r) => if r in h.handed then RedisConsumed(s, r) else s
    case DeleteDevice(device) => RedisDeleted(s, device)
  }

  /** Same tokens, same owners, same reservations; device keys may also name tokens that are gone, and
      such tokens are in `gone`. */
  ghost predicate Simulates(s: Redis, m: Memory, gone: set<Token>) {
    && s.tokens.Keys == m.byToken.Keys
    && (forall t | t in m.byToken :: s.tokens[t] == m.byToken[t].device)
    && (forall t | t in s.locks :: t in m.byToken && m.byToken[t].rid == Some(s.locks[t]))
    && (forall t | t in m.byToken && m.byToken[t].rid.Some? :: t in s.locks)
    && (forall d | d in m.byDevice :: d in s.devices && s.devices[d] == m.byDevice[d])
    && (forall d | d in s.devices && d !in m.byDevice :: s.devices[d] in gone)
    && gone !! m.byToken.Keys
  }

  /** A draw is not a token that was already used up. */
  ghost predicate FreshDraws(c: Call, gone: set<Token>) { c.Issue? ==> forall t | t in c.draws :: t !in gone }

  /** No draw of the run is a token that was used up before. */
  ghost predicate FreshRun(h: History, gone: set<Token>, cs: seq<Call>)
    decreases |cs|
  {
    cs == [] || (FreshDraws(cs[0], gone) && FreshRun(Next(h, cs[0]), Gone(h.m, Next(h, cs[0]).m, gone), cs[1..]))
  }

  ghost function Gone(m: Memory, m': Memory, gone: set<Token>): set<Token> {
    gone + (m.byToken.Keys - m'.byToken.Keys)
  }

  lemma {:induction false} RedisDrawPicks(s: Redis, device: Device, draws: seq<Token>)
    ensures RedisDraw(s, device, draws) ==
            match Pick(s.tokens.Keys, draws)
            case None => s
            case Some(token) =>
              var t := if device in s.devices then RedisForget(s, s.devices[device]) else s;
              t.(tokens := t.tokens[token := device], devices := t.devices[device := token])
    decreases |draws|
  {
    if draws != [] && draws[0] in s.tokens { RedisDrawPicks(s, device, draws[1..]); }
  }

  lemma ForgetTwice(s: Redis, token: Token)
    ensures RedisForget(RedisForget(s, token), token) == RedisForget(s, token)
  {
    var t := RedisForget(s, token);
    assert t.tokens - {token} == t.tokens && t.locks - {token} == t.locks;
  }

  lemma SimulatesForget(s: Redis, m: Memory, gone: set<Token>, device: Device)
    requires OneToOne(m) && Simulates(s, m, gone) && device in s.devices
    ensures var s' := RedisForget(s, s.devices[device]); var m' := Forgotten(m, device);
            && OneToOne(m') && device !in m'.byDevice && Simulates(s', m', Gone(m, m', gone))
            && s'.devices == s.devices && s.devices[device] in Gone(m, m', gone)
            && RedisForget(s', s.devices[device]) == s'
            && (forall d | d in s.devices && d != device && d !in m'.byDevice :: s.devices[d] in gone)
  {
    ForgetTwice(s, s.devices[device]);
  }

  /** Drawing for a device whose old token is gone. */
  lemma SimulatesPick(s: Redis, m: Memory, gone: set<Token>, device: Device, draws: seq<Token>)
    requires Simulates(s, m, gone) && device !in m.byDevice
    requires device in s.devices ==> RedisForget(s, s.devices[device]) == s
    requires forall d | d in s.devices && d != device && d !in m.byDevice :: s.devices[d] !in draws
    ensures match Pick(m.byToken.Keys, draws)
            case None => Simulates(RedisDraw(s, device, draws), m, gone)
            case Some(token) =>
              Simulates(RedisDraw(s, device, draws),
                        Memory(m.byToken[token := Bound(device, None)], m.byDevice[device := token]), gone - {token})
  {
    RedisDrawPicks(s, device, draws);
    PickIsFree(m.byToken.Keys, draws);
  }

  lemma GoneAfterIssue(m: Memory, gone: set<Token>, device: Device, draws: seq<Token>)
    requires gone !! m.byToken.Keys && forall t | t in draws :: t !in gone
    ensures var gone1 := Gone(m, Forgotten(m, device), gone);
            Gone(m, Issued(m, device, draws), gone) ==
            match Pick(Forgotten(m, device).byToken.Keys, draws) case None => gone1 case Some(token) => gone1 - {token}
  {
    PickIsFree(Forgotten(m, device).byToken.Keys, draws);
  }

  lemma SimulatesIssue(s: Redis, m: Memory, gone: set<Token>, device: Device, draws: seq<Token>)
    requires OneToOne(m) && Simulates(s, m, gone) && forall t | t in draws :: t !in gone
    ensures var m' := Issued(m, device, draws); Simulates(RedisIssued(s, device, draws), m', Gone(m, m', gone))
  {
    var clean := Forgotten(m, device);
    GoneAfterIssue(m, gone, device, draws);
    if device in s.devices {
      SimulatesForget(s, m, gone, device);
      SimulatesPick(RedisForget(s, s.devices[device]), clean, Gone(m, clean, gone), device, draws);
    } else {
      assert Gone(m, clean, gone) == gone;
      SimulatesPick(s, m, gone, device, draws);
    }
  }

  lemma SimulatesReserve(s: Redis, m: Memory, gone: set<Token>, device: Device, token: Token, rid: Rid)
    requires Simulates(s, m, gone)
    ensures Simulates(RedisReserved(s, device, token, rid), Reserved(m, device, token, rid), gone)
  {
  }

  lemma SimulatesRelease(s: Redis, m: Memory, gone: set<Token>, r: Reservation)
    requires Simulates(s, m, gone)
    ensures Simulates(RedisReleased(s, r), Released(m, r), Gone(m, Released(m, r), gone))
  {
    assert Gone(m, Released(m, r), gone) == gone;
  }

  lemma SimulatesConsume(s: Redis, m: Memory, gone: set<Token>, r: Reservation)
    requires OneToOne(m) && Simulates(s, m, gone) && (Holds(m, r) ==> m.byToken[r.token].device == r.device)
    ensures Simulates(RedisConsumed(s, r), Consumed(m, r), Gone(m, Consumed(m, r), gone))
  {
    if Holds(m, r) { assert RedisConsumed(s, r).tokens.Keys == Consumed(m, r).byToken.Keys; }
  }

  /** A reservation that was handed out and still holds its token names the device the token is bound to. */
  lemma HandedOutIsGenuine(cs: seq<Call>, r: Reservation)
    requires r in Run(Init(), cs).handed
    ensures Holds(Run(Init(), cs).m, r) <==> Consumable(Run(Init(), cs).m, r)
  {
    RunKeeps(Init(), cs);
  }

  /** The consume script looks at the lock alone. For a held reservation the two forms agree exactly when
      it names the device the token is bound to. */
  lemma ConsumeAgreesExactly(s: Redis, m: Memory, gone: set<Token>, r: Reservation)
    requires OneToOne(m) && Simulates(s, m, gone) && Holds(m, r)
    ensures RedisConsumed(s, r).tokens.Keys == Consumed(m, r).byToken.Keys <==> m.byToken[r.token].device == r.device
  {
    assert r.token !in RedisConsumed(s, r).tokens;
    if m.byToken[r.token].device == r.device { SimulatesConsume(s, m, gone, r); }
  }

  lemma SimulatesDelete(s: Redis, m: Memory, gone: set<Token>, device: Device)
    requires OneToOne(m) && Simulates(s, m, gone)
    ensures Simulates(RedisDeleted(s, device), Forgotten(m, device), Gone(m, Forgotten(m, device), gone))
  {
    if device in s.devices { SimulatesForget(s, m, gone, device); }
  }

  /** While no reservation expires on its own, the scripts match the in-memory form call for call. */
  lemma RedisMatchesMemory(s: Redis, h: History, gone: set<Token>, c: Call)
    requires OneToOne(h.m) && Tracked(h) && Simulates(s, h.m, gone) && FreshDraws(c, gone)
    ensures Simulates(RedisNext(s, h, c), Next(h, c).m, Gone(h.m, Next(h, c).m, gone))
  {
    match c
    case Issue(device, draws) => SimulatesIssue(s, h.m, gone, device, draws);
    case Reserve(device, token, rid) =>
      SimulatesReserve(s, h.m, gone, device, token, rid);
      assert Gone(h.m, Next(h, c).m, gone) == gone;
    case Release(r) => SimulatesRelease(s, h.m, gone, r);
    case Consume(r) =>
      if r in h.handed { SimulatesConsume(s, h.m, gone, r); }
      assert h.m.byToken.Keys - h.m.byToken.Keys == {};
    case DeleteDevice(device) => SimulatesDelete(s, h.m, gone, device);
  }

  // ---- Both forms through whole runs ----

  function RedisRun(s: Redis, h: History, cs: seq<Call>): Redis
    decreases |cs|
  {
    if cs == [] then s else RedisRun(RedisNext(s, h, cs[0]), Next(h, cs[0]), cs[1..])
  }

  lemma {:induction false} RedisRunMatches(s: Redis, h: History, gone: set<Token>, cs: seq<Call>)
    requires Inv(h) && Tracked(h) && Simulates(s, h.m, gone) && FreshRun(h, gone, cs)
    ensures exists end :: Simulates(RedisRun(s, h, cs), Run(h, cs).m, end)
    decreases |cs|
  {
    if cs == [] {
      assert Simulates(RedisRun(s, h, cs), Run(h, cs).m, gone);
    } else {
      var s', h' := RedisNext(s, h, cs[0]), Next(h, cs[0]);
      RedisMatchesMemory(s, h, gone, cs[0]);
      StepKeeps(h, cs[0]);
      TrackedStep(h, cs[0]);
      RedisRunMatches(s', h', Gone(h.m, h'.m, gone), cs[1..]);
      var end :| Simulates(RedisRun(s', h', cs[1..]), Run(h', cs[1..]).m, end);
      assert Simulates(RedisRun(s, h, cs), Run(h, cs).m, end);
    }
  }

  /** From empty stores the two forms keep the same tokens, owners and reservations through every run. */
  lemma FormsAgree(cs: seq<Call>)
    requires FreshRun(Init(), {}, cs)
    ensures exists gone :: Simulates(RedisRun(Redis(map[], map[], map[]), Init(), cs), Run(Init(), cs).m, gone)
  {
    RedisRunMatches(Redis(map[], map[], map[]), Init(), {}, cs);
  }

  // ---- Tokens ----

  ghost predicate SpentOnce(h: History, gone: set<Token>) {
    && gone !! h.m.byToken.Keys
    && (forall i | 0 <= i < |h.spent| :: h.spent[i].token in gone)
    && (forall i, j | 0 <= i < j < |h.spent| :: h.spent[i].token != h.spent[j].token)
  }

  lemma SpentOnceStep(h: History, gone: set<Token>, c: Call)
    requires SpentOnce(h, gone) && FreshDraws(c, gone)
    ensures SpentOnce(Next(h, c), Gone(h.m, Next(h, c).m, gone))
  {
    if c.Issue? { PickIsFree(Forgotten(h.m, c.device).byToken.Keys, c.draws); }
  }

  lemma {:induction false} SpentOnceRun(h: History, gone: set<Token>, cs: seq<Call>)
    requires SpentOnce(h, gone) && FreshRun(h, gone, cs)
    ensures forall i, j | 0 <= i < j < |Run(h, cs).spent| :: Run(h, cs).spent[i].token != Run(h, cs).spent[j].token
    decreases |cs|
  {
    if cs == [] {
    } else {
      SpentOnceStep(h, gone, cs[0]);
      SpentOnceRun(Next(h, cs[0]), Gone(h.m, Next(h, cs[0]).m, gone), cs[1..]);
    }
  }

  /** While no used-up token is drawn again, no token is effectively consumed twice, by whatever reservations. */
  lemma TokenConsumedAtMostOnce(cs: seq<Call>)
    requires FreshRun(Init(), {}, cs)
    ensures var spent := Run(Init(), cs).spent;
            forall i, j | 0 <= i < j < |spent| :: spent[i].token != spent[j].token
  {
    SpentOnceRun(Init(), {}, cs);
  }
}
