// The nonce manager: what one account's nonce state does on reserve and release, the class that
// keeps one such state per chain and account, and the protocol run by many callers whose
// reservations are split at the `await` on the state's initialisation.

module NonceManager {
  import opened Options
  import opened Chains
  import opened Text
  import Ordered

  // ----- one account's state -----

  /** The mutable part of a nonce state: `nextNonce`, `released` and `active`. */
  datatype NonceValue = NonceValue(nextNonce: Option<nat>, released: seq<nat>, active: set<nat>)

  const Blank := NonceValue(None, [], {})

  function Identity(n: nat): int {
    n
  }

  /** The synchronous second half of `reserve`; None is the "not initialized" exception. */
  function Take(v: NonceValue): (NonceValue, Option<nat>) {
    if v.released != [] then
      (v.(released := v.released[1..], active := v.active + {v.released[0]}), Some(v.released[0]))
    else if v.nextNonce.None? then (v, None)
    else (v.(nextNonce := Some(v.nextNonce.value + 1), active := v.active + {v.nextNonce.value}), v.nextNonce)
  }

  function GiveBack(v: NonceValue, nonce: nat): NonceValue {
    if nonce !in v.active then v
    else v.(active := v.active - {nonce}, released := Ordered.SortBy(v.released + [nonce], Identity))
  }

  ghost predicate StrictlyAscending(s: seq<nat>) {
    forall i, j :: 0 <= i < j < |s| ==> s[i] < s[j]
  }

  /** Active and released nonces are disjoint and together fill [first, next); released ascends. */
  ghost predicate Shape(v: NonceValue, first: nat) {
    && v.nextNonce.Some? && first <= v.nextNonce.value
    && StrictlyAscending(v.released)
    && (forall n :: n in v.released ==> n !in v.active)
    && (forall n: nat :: n in v.released || n in v.active <==> first <= n < v.nextNonce.value)
  }

  /** Reserving hands out the smallest nonce from `first` on that is not active. */
  lemma TakeSmallestFree(v: NonceValue, first: nat)
    requires Shape(v, first)
    ensures var (v', taken) := Take(v);
            && taken.Some? && Shape(v', first)
            && first <= taken.value && taken.value !in v.active && v'.active == v.active + {taken.value}
            && forall n: nat :: first <= n < taken.value ==> n in v.active
  {
    var (v', taken) := Take(v);
    if v.released != [] {
      var r := v.released;
      assert r == [r[0]] + r[1..];
      forall n: nat ensures n in r <==> n == r[0] || n in r[1..] {
      }
      forall n | n in r[1..] ensures n > r[0] {
        var i :| 0 <= i < |r[1..]| && r[1..][i] == n;
        assert r[i + 1] == n;
      }
    }
  }

  lemma SortedWithNewNonce(released: seq<nat>, nonce: nat)
    requires StrictlyAscending(released) && nonce !in released
    ensures var s := Ordered.SortBy(released + [nonce], Identity);
            StrictlyAscending(s) && forall n :: n in s <==> n in released || n == nonce
  {
    var all := released + [nonce];
    var s := Ordered.SortBy(all, Identity);
    Ordered.SortByCorrect(all, Identity);
    Ordered.SortByMembers(all, Identity);
    hide Ordered.SortBy;
    forall i, j | 0 <= i < j < |s| ensures s[i] < s[j] {
      assert Identity(s[i]) <= Identity(s[j]);
      EachOnce(released, nonce, s[i]);
      if s[i] == s[j] {
        TwiceCounted(s, i, j);
        assert false;
      }
    }
  }

  lemma TwiceCounted(s: seq<nat>, i: nat, j: nat)
    requires i < j < |s| && s[i] == s[j]
    ensures multiset(s)[s[i]] >= 2
  {
    var x := s[i];
    assert s == s[..i] + [x] + s[i + 1..j] + [x] + s[j + 1..];
  }

  lemma EachOnce(released: seq<nat>, nonce: nat, x: nat)
    requires StrictlyAscending(released) && nonce !in released
    ensures multiset(released + [nonce])[x] <= 1
  {
    AscendingOnce(released, x);
    assert multiset(released + [nonce]) == multiset(released) + multiset{nonce};
  }

  lemma {:induction false} AscendingOnce(s: seq<nat>, x: nat)
    requires StrictlyAscending(s)
    ensures multiset(s)[x] == if x in s then 1 else 0
  {
    if s != [] {
      AscendingOnce(s[1..], x);
      assert s == [s[0]] + s[1..];
      forall i | 0 <= i < |s[1..]| ensures s[1..][i] > s[0] {
      }
    }
  }

  /** Giving a nonce back keeps the shape and frees exactly that nonce, if it was active. */
  lemma GiveBackFrees(v: NonceValue, first: nat, nonce: nat)
    requires Shape(v, first)
    ensures var v' := GiveBack(v, nonce);
            && Shape(v', first) && v'.nextNonce == v.nextNonce && v'.active == v.active - {nonce}
            && (forall n :: n in v'.released <==> n in v.released || (n == nonce && nonce in v.active))
            && (v' == v <==> nonce !in v.active)
  {
    if nonce in v.active {
      SortedWithNewNonce(v.released, nonce);
      var s := GiveBack(v, nonce).released;
      forall n ensures n in s <==> n in v.released || n == nonce {
      }
    }
  }

  // ----- the class -----

  datatype InitStatus = Pending | Resolved | Rejected

  class NonceState {
    var initialized: InitStatus
    var nextNonce: Option<nat>
    var released: seq<nat>
    var active: set<nat>

    constructor (status: InitStatus, next: Option<nat>)
      ensures initialized == status && Value() == NonceValue(next, [], {})
    {
      initialized, nextNonce, released, active := status, next, [], {};
    }

    ghost function Value(): NonceValue
      reads this
    {
      NonceValue(nextNonce, released, active)
    }
  }

  class LocalNonceManager {
    var states: map<string, NonceState>

    /** Different keys never share a state object. */
    ghost predicate Valid()
      reads this
    {
      forall k, l :: k in states && l in states && k != l ==> states[k] != states[l]
    }

    constructor ()
      ensures Valid() && states == map[]
    {
      states := map[];
    }

    /** `reserve` up to its `await`: the state is looked up or created, and stays captured. */
    method BeginReserve(chain: SupportedChain, account: Address) returns (state: NonceState)
      requires Valid()
      modifies this
      ensures Valid()
      ensures ChainKey(chain, account) in states && state == states[ChainKey(chain, account)]
      ensures ChainKey(chain, account) in old(states) ==> states == old(states)
      ensures ChainKey(chain, account) !in old(states) ==>
                && fresh(state) && states == old(states)[ChainKey(chain, account) := state]
                && state.initialized == Pending && state.Value() == Blank
    {
      var key := ChainKey(chain, account);
      if key in states {
        state := states[key];
      } else {
        state := new NonceState(Pending, None);
        states := states[key := state];
      }
    }

    /** The nonce read for a created state succeeds. */
    method InitResolved(state: NonceState, nonce: nat)
      requires state.initialized == Pending
      modifies state
      ensures state.initialized == Resolved
      ensures state.Value() == old(state.Value()).(nextNonce := Some(nonce))
    {
      state.nextNonce := Some(nonce);
      state.initialized := Resolved;
    }

    /** The nonce read for a created state fails: whatever the key now maps to is dropped. */
    method InitRejected(chain: SupportedChain, account: Address, state: NonceState)
      requires Valid() && state.initialized == Pending
      modifies this, state
      ensures Valid() && states == old(states) - {ChainKey(chain, account)}
      ensures state.initialized == Rejected && state.Value() == old(state.Value())
    {
      states := states - {ChainKey(chain, account)};
      state.initialized := Rejected;
    }

    /** `reserve` after its `await`, on the captured state; None when it throws. */
    method FinishReserve(state: NonceState) returns (nonce: Option<nat>)
      requires state.initialized != Pending
      modifies state
      ensures state.initialized == old(state.initialized)
      ensures old(state.initialized) == Rejected ==> nonce == None && state.Value() == old(state.Value())
      ensures old(state.initialized) == Resolved ==> (state.Value(), nonce) == Take(old(state.Value()))
    {
      nonce := None;
      if state.initialized == Rejected {
        return;
      }
      if state.released != [] {
        nonce := Some(state.released[0]);
        state.released := state.released[1..];
        state.active := state.active + {nonce.value};
        return;
      }
      if state.nextNonce.None? {
        return;
      }
      nonce := state.nextNonce;
      state.nextNonce := Some(nonce.value + 1);
      state.active := state.active + {nonce.value};
    }

    /** Acts on the state the key maps to now, not on the one the nonce came from. */
    method Release(chain: SupportedChain, account: Address, nonce: nat)
      requires Valid()
      modifies states.Values
      ensures Valid() && states == old(states)
      ensures forall k :: k in states ==>
                && states[k].initialized == old(states[k].initialized)
                && states[k].Value() == if k == ChainKey(chain, account)
                                        then GiveBack(old(states[k].Value()), nonce)
                                        else old(states[k].Value())
    {
      var key := ChainKey(chain, account);
      if key !in states {
        return;
      }
      var state := states[key];
      if nonce !in state.active {
        return;
      }
      state.active := state.active - {nonce};
      state.released := state.released + [nonce];
      state.released := Ordered.SortBy(state.released, Identity);
    }

    method Resync(chain: SupportedChain, account: Address, nextNonce: nat)
      requires Valid()
      modifies this
      ensures Valid()
      ensures var key := ChainKey(chain, account);
              && key in states && fresh(states[key]) && states == old(states)[key := states[key]]
              && states[key].initialized == Resolved
              && states[key].Value() == NonceValue(Some(nextNonce), [], {})
    {
      var state := new NonceState(Resolved, Some(nextNonce));
      states := states[ChainKey(chain, account) := state];
    }
  }

  // ----- the protocol: many callers, interleaved at each await -----

  /** A state object: which key created it, how its initialisation went, and where its nonces start. */
  datatype Slot = Slot(key: string, status: InitStatus, first: nat, value: NonceValue)

  datatype Reservation = Reservation(key: string, nonce: nat)

  /** All state objects ever made, the current one per key, the callers waiting in `reserve` with the
      object they captured, and the reservations whose holders may still use them. */
  datatype World = World(
    slots: seq<Slot>,
    states: map<string, nat>,
    waiting: map<nat, nat>,
    live: map<nat, Reservation>)

  const Start := World([], map[], map[], map[])

  datatype Step =
    | Begin(id: nat, key: string)
    | Resolve(slot: nat, nonce: nat)
    | Reject(slot: nat)
    | Finish(id: nat)
    | Release(id: nat, reservation: Reservation)
    | Abandon(id: nat)
    | Resync(key: string, next: nat)

  ghost predicate Indexed(w: World) {
    && (forall k :: k in w.states ==> w.states[k] < |w.slots|)
    && (forall id :: id in w.waiting ==> w.waiting[id] < |w.slots|)
  }

  ghost predicate Enabled(w: World, s: Step)
    requires Indexed(w)
  {
    match s
    case Begin(id, key) => id !in w.waiting && id !in w.live
    case Resolve(slot, _) => slot < |w.slots| && w.slots[slot].status == Pending
    case Reject(slot) => slot < |w.slots| && w.slots[slot].status == Pending
    case Finish(id) => id in w.waiting && w.slots[w.waiting[id]].status != Pending
    case Release(_, _) => true
    case Abandon(id) => id in w.live
    case Resync(_, _) => true
  }

  function SetValue(w: World, slot: nat, value: NonceValue): World
    requires slot < |w.slots|
  {
    w.(slots := w.slots[slot := w.slots[slot].(value := value)])
  }

  ghost function Next(w: World, s: Step): (w': World)
    requires Indexed(w) && Enabled(w, s)
    ensures Indexed(w')
  {
    match s
    case Begin(id, key) =>
      if key in w.states then w.(waiting := w.waiting[id := w.states[key]])
      else w.(slots := w.slots + [Slot(key, Pending, 0, Blank)],
              states := w.states[key := |w.slots|],
              waiting := w.waiting[id := |w.slots|])
    case Resolve(slot, nonce) =>
      var pending := w.slots[slot];
      w.(slots := w.slots[slot := pending.(status := Resolved, first := nonce,
                                        value := pending.value.(nextNonce := Some(nonce)))])
    case Reject(slot) =>
      w.(slots := w.slots[slot := w.slots[slot].(status := Rejected)],
         states := w.states - {w.slots[slot].key})
    case Finish(id) =>
      var slot := w.waiting[id];
      var key := w.slots[slot].key;
      var done := w.(waiting := w.waiting - {id});
      if w.slots[slot].status == Rejected then done
      else
        var (value, taken) := Take(w.slots[slot].value);
        if taken.None? then done
        else SetValue(done, slot, value).(live := w.live[id := Reservation(key, taken.value)])
    case Release(id, r) =>
      var freed := if r.key in w.states
                   then SetValue(w, w.states[r.key], GiveBack(w.slots[w.states[r.key]].value, r.nonce))
                   else w;
      if id in w.live && w.live[id] == r then freed.(live := w.live - {id}) else freed
    case Abandon(id) => w.(live := w.live - {id})
    case Resync(key, next) =>
      w.(slots := w.slots + [Slot(key, Resolved, next, NonceValue(Some(next), [], {}))],
         states := w.states[key := |w.slots|])
  }

  // ----- runs, and the discipline that keeps reservations apart -----

  ghost predicate Possible(w: World, steps: seq<Step>)
    requires Indexed(w)
    decreases |steps|
  {
    steps == [] || (Enabled(w, steps[0]) && Possible(Next(w, steps[0]), steps[1..]))
  }

  ghost function Run(w: World, steps: seq<Step>): (w': World)
    requires Indexed(w) && Possible(w, steps)
    ensures Indexed(w')
    decreases |steps|
  {
    if steps == [] then w else Run(Next(w, steps[0]), steps[1..])
  }

  /** The current state of the key is still waiting for its first nonce. */
  ghost predicate StillReading(w: World, key: string)
    requires Indexed(w)
  {
    key in w.states && w.slots[w.states[key]].status == Pending
  }

  ghost predicate AboveLive(w: World, key: string, next: nat) {
    forall id :: id in w.live && w.live[id].key == key ==> w.live[id].nonce < next
  }

  /** The callers that captured a state and have not settled yet. */
  function Waiters(w: World, slot: int): set<nat> {
    set id | id in w.waiting && w.waiting[id] == slot
  }

  /** The next n nonces taken are all below the bound. */
  ghost predicate NextBelow(v: NonceValue, n: nat, bound: nat)
    decreases n
  {
    n == 0 || (var (rest, taken) := Take(v); taken.Some? && taken.value < bound && NextBelow(rest, n - 1, bound))
  }

  /** Whatever the callers still waiting on states of the key will take is below the bound. */
  ghost predicate AboveWaiting(w: World, key: string, bound: nat) {
    forall t :: 0 <= t < |w.slots| && w.slots[t].key == key && w.slots[t].status == Resolved
                ==> NextBelow(w.slots[t].value, |Waiters(w, t)|, bound)
  }

  /** Releases come from the holder, once; a resync comes while no first nonce is being read, with a nonce
      above every live one and above all that callers in flight will still take from older states. */
  ghost predicate Disciplined(w: World, s: Step)
    requires Indexed(w)
  {
    match s
    case Release(id, r) => id in w.live && w.live[id] == r
    case Resync(key, next) => !StillReading(w, key) && AboveLive(w, key, next) && AboveWaiting(w, key, next)
    case _ => true
  }

  ghost predicate AllDisciplined(w: World, steps: seq<Step>)
    requires Indexed(w) && Possible(w, steps)
    decreases |steps|
  {
    steps == [] || (Disciplined(w, steps[0]) && AllDisciplined(Next(w, steps[0]), steps[1..]))
  }

  ghost predicate Legal(w: World, steps: seq<Step>)
    requires Indexed(w)
  {
    Possible(w, steps) && AllDisciplined(w, steps)
  }

  // ----- the invariant -----

  /** No two live reservations of one account share a nonce. */
  ghost predicate Unique(w: World) {
    forall i, j :: i in w.live && j in w.live && i != j && w.live[i].key == w.live[j].key
                   ==> w.live[i].nonce != w.live[j].nonce
  }

  ghost predicate Current(w: World, slot: nat)
    requires slot < |w.slots|
  {
    w.slots[slot].key in w.states && w.states[w.slots[slot].key] == slot
  }

  ghost predicate Ready(w: World, key: string)
    requires Indexed(w)
  {
    && key in w.states
    && var slot := w.slots[w.states[key]];
       slot.key == key && slot.status == Resolved && Shape(slot.value, slot.first)
  }

  /** A newer state of the same key. */
  ghost predicate Newer(w: World, t: int, u: int) {
    && 0 <= t < u < |w.slots| && w.slots[t].key == w.slots[u].key
    && w.slots[t].status == Resolved && w.slots[u].status == Resolved
  }

  /** The nonce is active in that state of its key, and older than every newer state. */
  ghost predicate Born(w: World, r: Reservation, b: int) {
    && 0 <= b < |w.slots| && w.slots[b].key == r.key && w.slots[b].status == Resolved
    && r.nonce in w.slots[b].value.active
    && forall u :: Newer(w, b, u) ==> r.nonce < w.slots[u].first
  }

  /** The current state of a key was made by it, last, and did not fail; only it may still be reading. */
  ghost predicate StatesOk(w: World, key: string)
    requires Indexed(w)
  {
    && (key in w.states ==>
          && w.slots[w.states[key]].key == key && w.slots[w.states[key]].status != Rejected
          && forall i :: w.states[key] < i < |w.slots| ==> w.slots[i].key != key)
    && (forall i :: 0 <= i < |w.slots| && w.slots[i].key == key ==>
          && (w.slots[i].status == Pending ==> w.slots[i].value == Blank && Current(w, i))
          && (w.slots[i].status == Resolved ==> Shape(w.slots[i].value, w.slots[i].first)))
  }

  /** Callers that can still take a nonce wait for a key whose current state is ready, and what they will
      take from a state is below the first nonce of every newer one. */
  ghost predicate WaitingOk(w: World, key: string)
    requires Indexed(w)
  {
    && (forall id :: id in w.waiting ==>
          (w.slots[w.waiting[id]].key == key && w.slots[w.waiting[id]].status == Resolved ==> Ready(w, key)))
    && (forall t, u :: Newer(w, t, u) && w.slots[t].key == key ==>
          NextBelow(w.slots[t].value, |Waiters(w, t)|, w.slots[u].first))
  }

  ghost predicate LiveOk(w: World, key: string)
    requires Indexed(w)
  {
    && (forall id :: id in w.live && w.live[id].key == key ==> Ready(w, key) && exists b :: Born(w, w.live[id], b))
    && (forall i, j :: i in w.live && j in w.live && i != j && w.live[i].key == key && w.live[j].key == key
                       ==> w.live[i].nonce != w.live[j].nonce)
  }

  ghost predicate KeyGood(w: World, key: string)
    requires Indexed(w)
  {
    StatesOk(w, key) && WaitingOk(w, key) && LiveOk(w, key)
  }

  /** Nobody waits who holds a reservation. */
  ghost predicate Apart(w: World) {
    forall id :: id in w.waiting ==> id !in w.live
  }

  ghost predicate Good(w: World) {
    Indexed(w) && Apart(w) && forall key :: KeyGood(w, key)
  }

  lemma GoodIsUnique(w: World)
    requires Good(w)
    ensures Unique(w)
  {
    hide StatesOk, WaitingOk;
    forall i | i in w.live ensures KeyGood(w, w.live[i].key) {
    }
  }

  /** In the current state of its key a live nonce is active, or older than that state. */
  ghost predicate Backed(w: World, r: Reservation)
    requires Indexed(w)
  {
    && Ready(w, r.key)
    && var slot := w.slots[w.states[r.key]];
       r.nonce in slot.value.active || r.nonce < slot.first
  }

  lemma LiveIsBacked(w: World, id: nat)
    requires Good(w) && id in w.live
    ensures Backed(w, w.live[id])
  {
    hide Shape;
    var r := w.live[id];
    assert KeyGood(w, r.key);
    var b :| Born(w, r, b);
    var c := w.states[r.key];
    assert b < c ==> Newer(w, b, c);
  }

  // ----- keys that a step leaves alone -----

  /** Nothing of the key differs: its states, who waits on them, its reservations. */
  ghost predicate SameFor(w: World, w': World, key: string)
    requires Indexed(w) && Indexed(w')
  {
    && |w.slots| <= |w'.slots|
    && (forall i :: 0 <= i < |w.slots| ==>
          w'.slots[i].key == w.slots[i].key && (w.slots[i].key == key ==> w'.slots[i] == w.slots[i]))
    && (forall i :: |w.slots| <= i < |w'.slots| ==> w'.slots[i].key != key)
    && (key in w.states <==> key in w'.states) && (key in w.states ==> w'.states[key] == w.states[key])
    && (forall i :: 0 <= i < |w.slots| && w.slots[i].key == key ==> Waiters(w', i) == Waiters(w, i))
    && (forall id :: id in w.live && w.live[id].key == key ==> id in w'.live && w'.live[id] == w.live[id])
    && (forall id :: id in w'.live && w'.live[id].key == key ==> id in w.live && w.live[id] == w'.live[id])
  }

  lemma SameForKeeps(w: World, w': World, key: string)
    requires Indexed(w) && Indexed(w') && KeyGood(w, key) && SameFor(w, w', key)
    ensures KeyGood(w', key)
  {
    hide Shape, NextBelow;
    assert StatesOk(w', key);
    assert Ready(w', key) == Ready(w, key);
    SameWaiting(w, w', key);
    forall id | id in w'.live && w'.live[id].key == key ensures Ready(w', key) && exists b :: Born(w', w'.live[id], b) {
      var b :| Born(w, w.live[id], b);
      forall u | Newer(w', b, u) ensures w'.live[id].nonce < w'.slots[u].first {
        assert Newer(w, b, u);
      }
      assert Born(w', w'.live[id], b);
    }
  }

  lemma SameWaiting(w: World, w': World, key: string)
    requires Indexed(w) && Indexed(w') && WaitingOk(w, key) && SameFor(w, w', key) && Ready(w', key) == Ready(w, key)
    ensures WaitingOk(w', key)
  {
    hide Ready, NextBelow;
    forall id | id in w'.waiting && w'.slots[w'.waiting[id]].key == key && w'.slots[w'.waiting[id]].status == Resolved
      ensures Ready(w', key)
    {
      assert id in Waiters(w', w'.waiting[id]);
      assert id in Waiters(w, w'.waiting[id]);
    }
    forall t, u | Newer(w', t, u) && w'.slots[t].key == key
      ensures NextBelow(w'.slots[t].value, |Waiters(w', t)|, w'.slots[u].first)
    {
      assert Newer(w, t, u);
    }
  }

  /** A step that concerns one key keeps the invariant when it keeps it for that key. */
  lemma OneKeyGood(w: World, w': World, key: string)
    requires Good(w) && Indexed(w') && Apart(w') && KeyGood(w', key)
    requires forall k :: k != key ==> SameFor(w, w', k)
    ensures Good(w')
  {
    hide KeyGood, SameFor;
    forall k ensures KeyGood(w', k) {
      if k != key {
        assert KeyGood(w, k) && SameFor(w, w', k);
        SameForKeeps(w, w', k);
      }
    }
  }

  // ----- the steps -----

  /** Forgetting callers or reservations keeps the invariant. */
  lemma ForgettingGood(w: World, w': World)
    requires Good(w) && w'.slots == w.slots && w'.states == w.states
    requires forall id :: id in w'.waiting ==> id in w.waiting && w'.waiting[id] == w.waiting[id]
    requires forall id :: id in w'.live ==> id in w.live && w'.live[id] == w.live[id]
    ensures Good(w')
  {
    hide Shape, NextBelow;
    forall key ensures KeyGood(w', key) {
      assert KeyGood(w, key);
      assert Ready(w', key) == Ready(w, key);
      forall t, u | Newer(w', t, u) && w'.slots[t].key == key
        ensures NextBelow(w'.slots[t].value, |Waiters(w', t)|, w'.slots[u].first)
      {
        assert Newer(w, t, u);
        FewerBelow(w, w', t, w.slots[t].value, w.slots[u].first);
      }
      SameBirths(w, w');
    }
  }

  lemma SameBirths(w: World, w': World)
    requires w'.slots == w.slots
    ensures forall r, b :: Born(w, r, b) ==> Born(w', r, b)
  {
    forall r, b | Born(w, r, b) ensures Born(w', r, b) {
      assert forall u :: Newer(w', b, u) ==> Newer(w, b, u);
    }
  }

  lemma {:induction false} FewerNextBelow(v: NonceValue, n: nat, m: nat, bound: nat)
    requires n <= m && NextBelow(v, m, bound)
    ensures NextBelow(v, n, bound)
    decreases n
  {
    if n > 0 {
      FewerNextBelow(Take(v).0, n - 1, m - 1, bound);
    }
  }

  lemma FewerBelow(w: World, w': World, t: int, v: NonceValue, bound: nat)
    requires NextBelow(v, |Waiters(w, t)|, bound)
    requires forall id :: id in w'.waiting ==> id in w.waiting && w'.waiting[id] == w.waiting[id]
    ensures NextBelow(v, |Waiters(w', t)|, bound)
  {
    var before, after := Waiters(w, t), Waiters(w', t);
    assert after <= before;
    SubsetSize(after, before);
    FewerNextBelow(v, |after|, |before|, bound);
  }

  lemma SubsetSize(a: set<nat>, b: set<nat>)
    requires a <= b
    ensures |a| <= |b|
  {
    assert b == a + (b - a);
  }

  lemma BeginGood(w: World, id: nat, key: string)
    requires Good(w) && Enabled(w, Begin(id, key))
    ensures Good(Next(w, Begin(id, key)))
  {
    var w' := Next(w, Begin(id, key));
    hide KeyGood;
    assert KeyGood(w, key);
    if key !in w.states {
      CreateGood(w, id, key);
    } else {
      WaitMoreGood(w, id, key);
    }
    forall k | k != key ensures SameFor(w, w', k) {
      assert KeyGood(w, key);
      BeginSameFor(w, id, key, k);
    }
    OneKeyGood(w, w', key);
  }

  lemma BeginSameFor(w: World, id: nat, key: string, k: string)
    requires Indexed(w) && Enabled(w, Begin(id, key)) && KeyGood(w, key) && k != key
    ensures SameFor(w, Next(w, Begin(id, key)), k)
  {
    hide Shape, NextBelow;
    var w' := Next(w, Begin(id, key));
    forall i | 0 <= i < |w.slots| && w.slots[i].key == k ensures Waiters(w', i) == Waiters(w, i) {
    }
  }

  /** One more caller waits on the current state of its key: no state is newer. */
  lemma WaitMoreGood(w: World, id: nat, key: string)
    requires Indexed(w) && KeyGood(w, key) && key in w.states && id !in w.waiting && id !in w.live
    ensures KeyGood(Next(w, Begin(id, key)), key)
  {
    hide Shape, NextBelow;
    var w', c := Next(w, Begin(id, key)), w.states[key];
    assert Ready(w', key) == Ready(w, key);
    forall t, u | Newer(w', t, u) && w'.slots[t].key == key
      ensures NextBelow(w'.slots[t].value, |Waiters(w', t)|, w'.slots[u].first)
    {
      assert Newer(w, t, u) && t != c;
      assert Waiters(w', t) == Waiters(w, t);
    }
    SameBirths(w, w');
  }

  /** A first caller creates the state of its key and waits on it. */
  lemma CreateGood(w: World, id: nat, key: string)
    requires Indexed(w) && KeyGood(w, key) && key !in w.states && id !in w.waiting && id !in w.live
    ensures KeyGood(Next(w, Begin(id, key)), key)
  {
    hide Shape, NextBelow;
    assert StatesOk(Next(w, Begin(id, key)), key) && LiveOk(Next(w, Begin(id, key)), key);
    CreateKeepsWaiting(w, id, key);
    hide *;
  }

  lemma CreateKeepsWaiting(w: World, id: nat, key: string)
    requires Indexed(w) && WaitingOk(w, key) && key !in w.states && id !in w.waiting && id !in w.live
    ensures WaitingOk(Next(w, Begin(id, key)), key)
  {
    hide NextBelow;
    var w', n := Next(w, Begin(id, key)), |w.slots|;
    forall i | 0 <= i < n ensures w'.slots[i] == w.slots[i] && Waiters(w', i) == Waiters(w, i) {
    }
    forall t, u | Newer(w', t, u) && w'.slots[t].key == key
      ensures NextBelow(w'.slots[t].value, |Waiters(w', t)|, w'.slots[u].first)
    {
      assert Newer(w, t, u);
    }
    forall i | i in w'.waiting && w'.slots[w'.waiting[i]].key == key
      ensures w'.slots[w'.waiting[i]].status != Resolved {
      assert i != id ==> w.slots[w.waiting[i]].key == key;
    }
  }

  /** Nothing depends on a state that is still reading: its key has no live reservation, and nobody can
      take a nonce from an older state. */
  lemma ReadingIsIdle(w: World, slot: nat)
    requires Indexed(w) && slot < |w.slots| && w.slots[slot].status == Pending && KeyGood(w, w.slots[slot].key)
    ensures Current(w, slot) && !Ready(w, w.slots[slot].key)
    ensures forall i :: i in w.live ==> w.live[i].key != w.slots[slot].key
    ensures forall t :: 0 <= t < |w.slots| && w.slots[t].key == w.slots[slot].key && w.slots[t].status == Resolved
                        ==> Waiters(w, t) == {} && t < slot
    ensures forall i :: slot < i < |w.slots| ==> w.slots[i].key != w.slots[slot].key
  {
    hide Shape, NextBelow;
    var key := w.slots[slot].key;
    forall t | 0 <= t < |w.slots| && w.slots[t].key == key && w.slots[t].status == Resolved
      ensures Waiters(w, t) == {} {
      assert forall i :: i in Waiters(w, t) ==> Ready(w, key);
    }
  }

  lemma InitGood(w: World, s: Step)
    requires Good(w) && Enabled(w, s) && (s.Resolve? || s.Reject?)
    ensures Good(Next(w, s))
  {
    hide KeyGood, Shape;
    var w', key := Next(w, s), w.slots[s.slot].key;
    assert KeyGood(w, key);
    ReadingIsIdle(w, s.slot);
    SettledGood(w, s);
    forall k | k != key ensures SameFor(w, w', k) {
      InitSameFor(w, s, k);
    }
    hide Next, SameFor;
    OneKeyGood(w, w', key);
  }

  lemma InitSameFor(w: World, s: Step, k: string)
    requires Indexed(w) && Enabled(w, s) && (s.Resolve? || s.Reject?)
    requires Current(w, s.slot) && k != w.slots[s.slot].key
    ensures SameFor(w, Next(w, s), k)
  {
    forall i | 0 <= i < |w.slots| ensures Waiters(Next(w, s), i) == Waiters(w, i) {
    }
  }

  lemma SettledGood(w: World, s: Step)
    requires Indexed(w) && Enabled(w, s) && (s.Resolve? || s.Reject?) && KeyGood(w, w.slots[s.slot].key)
    ensures KeyGood(Next(w, s), w.slots[s.slot].key)
  {
    var w', key := Next(w, s), w.slots[s.slot].key;
    ReadingIsIdle(w, s.slot);
    assert s.Resolve? ==> Shape(NonceValue(Some(s.nonce), [], {}), s.nonce);
    hide Shape;
    forall i ensures Waiters(w', i) == Waiters(w, i) {
    }
    forall t, u | Newer(w', t, u) && w'.slots[t].key == key
      ensures NextBelow(w'.slots[t].value, |Waiters(w', t)|, w'.slots[u].first)
    {
      assert t != s.slot;
    }
    forall i | i in w'.waiting && w'.slots[w'.waiting[i]].key == key && w'.slots[w'.waiting[i]].status == Resolved
      ensures Ready(w', key)
    {
      assert i in Waiters(w, w.waiting[i]);
    }
  }

  /** Replacing the value of one state by another of the right shape, while callers leave that state. */
  ghost predicate ValueChanged(w: World, w': World, t: nat, value: NonceValue) {
    && t < |w.slots| && w.slots[t].status == Resolved && Shape(value, w.slots[t].first)
    && w'.slots == w.slots[t := w.slots[t].(value := value)] && w'.states == w.states
    && (forall id :: id in w'.waiting ==> id in w.waiting && w'.waiting[id] == w.waiting[id])
    && (forall id :: id in w.waiting && w.waiting[id] != t ==> id in w'.waiting)
  }

  lemma ValueChangeKeeps(w: World, w': World, t: nat, value: NonceValue)
    requires Indexed(w) && ValueChanged(w, w', t, value) && KeyGood(w, w.slots[t].key)
    requires forall u :: Newer(w, t, u) ==> NextBelow(value, |Waiters(w', t)|, w.slots[u].first)
    ensures Indexed(w') && StatesOk(w', w.slots[t].key) && WaitingOk(w', w.slots[t].key)
    ensures Ready(w, w.slots[t].key) ==> Ready(w', w.slots[t].key)
  {
    hide NextBelow, Shape;
    var key := w.slots[t].key;
    assert Ready(w, key) ==> Ready(w', key);
    forall x, u | Newer(w', x, u) && w'.slots[x].key == key
      ensures NextBelow(w'.slots[x].value, |Waiters(w', x)|, w'.slots[u].first)
    {
      assert Newer(w, x, u);
      assert x != t ==> Waiters(w', x) == Waiters(w, x);
    }
  }

  lemma BirthAfterChange(w: World, w': World, t: nat, value: NonceValue, r: Reservation, b: int)
    requires ValueChanged(w, w', t, value) && Born(w, r, b) && (b == t ==> r.nonce in value.active)
    ensures Born(w', r, b)
  {
    hide Shape;
    assert forall u :: Newer(w', b, u) ==> Newer(w, b, u);
  }

  lemma ValueSameFor(w: World, w': World, t: nat, value: NonceValue, k: string)
    requires Indexed(w) && Indexed(w') && ValueChanged(w, w', t, value) && k != w.slots[t].key
    requires forall id :: id in w.live && w.live[id].key == k ==> id in w'.live && w'.live[id] == w.live[id]
    requires forall id :: id in w'.live && w'.live[id].key == k ==> id in w.live && w.live[id] == w'.live[id]
    ensures SameFor(w, w', k)
  {
    hide Shape;
    forall i | 0 <= i < |w.slots| && w.slots[i].key == k ensures Waiters(w', i) == Waiters(w, i) {
    }
  }

  /** What a waiting caller takes from a state: born there, and no live reservation of the key has it. */
  lemma TakenIsNew(w: World, id: nat)
    requires Indexed(w) && id in w.waiting && w.slots[w.waiting[id]].status == Resolved
    requires KeyGood(w, w.slots[w.waiting[id]].key)
    ensures var t := w.waiting[id];
            var (value, taken) := Take(w.slots[t].value);
            && taken.Some? && Shape(value, w.slots[t].first) && Ready(w, w.slots[t].key)
            && value.active == w.slots[t].value.active + {taken.value}
            && (forall u :: Newer(w, t, u) ==> taken.value < w.slots[u].first
                                               && NextBelow(value, |Waiters(w, t) - {id}|, w.slots[u].first))
            && (forall i :: i in w.live && w.live[i].key == w.slots[t].key ==> w.live[i].nonce != taken.value)
  {
    var t := w.waiting[id];
    TakeSmallestFree(w.slots[t].value, w.slots[t].first);
    var taken := Take(w.slots[t].value).1.value;
    forall u | Newer(w, t, u)
      ensures taken < w.slots[u].first && NextBelow(Take(w.slots[t].value).0, |Waiters(w, t) - {id}|, w.slots[u].first)
    {
      assert id in Waiters(w, t);
      assert |Waiters(w, t) - {id}| == |Waiters(w, t)| - 1;
    }
    forall i | i in w.live && w.live[i].key == w.slots[t].key ensures w.live[i].nonce != taken {
      var b :| Born(w, w.live[i], b);
      assert b < t ==> Newer(w, b, t);
      assert t < b ==> Newer(w, t, b);
    }
  }

  /** A waiting caller takes the next nonce of the state it captured. */
  lemma TakeGood(w: World, id: nat, w': World)
    requires Good(w) && id in w.waiting && w.slots[w.waiting[id]].status == Resolved
    requires var slot, (value, taken) := w.waiting[id], Take(w.slots[w.waiting[id]].value);
             && taken.Some?
             && w' == World(w.slots[slot := w.slots[slot].(value := value)], w.states, w.waiting - {id},
                            w.live[id := Reservation(w.slots[slot].key, taken.value)])
    ensures Good(w')
  {
    hide KeyGood;
    var t := w.waiting[id];
    var key, value := w.slots[t].key, Take(w.slots[t].value).0;
    assert KeyGood(w, key);
    TakenIsNew(w, id);
    hide Take, NextBelow, Shape;
    TakeKeepsKey(w, id, w', value);
    forall k | k != key ensures SameFor(w, w', k) {
      ValueSameFor(w, w', t, value, k);
    }
    OneKeyGood(w, w', key);
  }

  lemma TakeKeepsKey(w: World, id: nat, w': World, value: NonceValue)
    requires Indexed(w) && Indexed(w') && id in w.waiting && id !in w.live && w.slots[w.waiting[id]].status == Resolved
    requires KeyGood(w, w.slots[w.waiting[id]].key) && ValueChanged(w, w', w.waiting[id], value)
    requires value == Take(w.slots[w.waiting[id]].value).0 && Take(w.slots[w.waiting[id]].value).1.Some?
    requires w'.waiting == w.waiting - {id}
    requires var slot := w.slots[w.waiting[id]];
             w'.live == w.live[id := Reservation(slot.key, Take(slot.value).1.value)]
    ensures KeyGood(w', w.slots[w.waiting[id]].key)
  {
    TakenIsNew(w, id);
    hide Take, NextBelow, Shape;
    assert Waiters(w', w.waiting[id]) == Waiters(w, w.waiting[id]) - {id};
    ValueChangeKeeps(w, w', w.waiting[id], value);
    TakenIsBorn(w, id, w', value);
    hide StatesOk, WaitingOk, Ready, Newer, Born, ValueChanged;
  }

  /** The reservation just made is active in its state, and the others stay so. */
  lemma TakenIsBorn(w: World, id: nat, w': World, value: NonceValue)
    requires Indexed(w) && Indexed(w') && id in w.waiting && w.slots[w.waiting[id]].status == Resolved
    requires LiveOk(w, w.slots[w.waiting[id]].key) && ValueChanged(w, w', w.waiting[id], value)
    requires var slot, t, r := w.slots[w.waiting[id]], w.waiting[id], w'.live;
             && id in r && r[id].key == slot.key && r[id].nonce in value.active && slot.value.active <= value.active
             && (forall i :: i in r && i != id ==> i in w.live && r[i] == w.live[i])
             && forall u :: Newer(w, t, u) ==> r[id].nonce < w.slots[u].first
    ensures forall i :: i in w'.live && w'.live[i].key == w.slots[w.waiting[id]].key ==>
              exists b :: Born(w', w'.live[i], b)
  {
    hide Ready, Shape;
    var t := w.waiting[id];
    forall i | i in w'.live && w'.live[i].key == w.slots[t].key ensures exists b :: Born(w', w'.live[i], b) {
      if i == id {
        assert forall u :: Newer(w', t, u) ==> Newer(w, t, u);
        assert Born(w', w'.live[id], t);
      } else {
        var b :| Born(w, w.live[i], b);
        BirthAfterChange(w, w', t, value, w.live[i], b);
      }
    }
  }

  lemma FinishGood(w: World, id: nat)
    requires Good(w) && Enabled(w, Finish(id))
    ensures Good(Next(w, Finish(id)))
  {
    if w.slots[w.waiting[id]].status == Resolved {
      assert KeyGood(w, w.slots[w.waiting[id]].key);
      TakenIsNew(w, id);
      hide Good, Shape, Take;
      TakeGood(w, id, Next(w, Finish(id)));
    } else {
      ForgettingGood(w, Next(w, Finish(id)));
    }
  }

  /** The current state of the reservation's key has its nonce active. */
  ghost predicate ActiveNow(w: World, r: Reservation)
    requires Indexed(w)
  {
    r.key in w.states && r.nonce in w.slots[w.states[r.key]].value.active
  }

  lemma ReleaseGood(w: World, id: nat, r: Reservation)
    requires Good(w)
    requires forall i :: i in w.live && w.live[i] == r && i != id ==> !ActiveNow(w, r)
    ensures Good(Next(w, Release(id, r)))
  {
    var w' := Next(w, Release(id, r));
    if !ActiveNow(w, r) {
      assert r.key in w.states ==> w.slots[w.states[r.key] := w.slots[w.states[r.key]]] == w.slots;
      ForgettingGood(w, w');
    } else {
      var c := w.states[r.key];
      assert KeyGood(w, r.key);
      var value := GiveBack(w.slots[c].value, r.nonce);
      GiveBackFrees(w.slots[c].value, w.slots[c].first, r.nonce);
      FreeKeepsKey(w, id, r);
      hide KeyGood, GiveBack, Shape;
      forall k | k != r.key ensures SameFor(w, w', k) {
        ValueSameFor(w, w', c, value, k);
      }
      OneKeyGood(w, w', r.key);
    }
  }

  lemma FreeKeepsKey(w: World, id: nat, r: Reservation)
    requires Indexed(w) && KeyGood(w, r.key) && ActiveNow(w, r)
    requires forall i :: i in w.live && w.live[i] == r ==> i == id
    ensures KeyGood(Next(w, Release(id, r)), r.key)
  {
    var w', c := Next(w, Release(id, r)), w.states[r.key];
    var value := GiveBack(w.slots[c].value, r.nonce);
    GiveBackFrees(w.slots[c].value, w.slots[c].first, r.nonce);
    hide GiveBack, NextBelow, Shape;
    ValueChangeKeeps(w, w', c, value);
    forall i | i in w'.live && w'.live[i].key == r.key ensures exists b :: Born(w', w'.live[i], b) {
      var b :| Born(w, w.live[i], b);
      BirthAfterChange(w, w', c, value, w.live[i], b);
    }
  }

  lemma ResyncGood(w: World, key: string, next: nat)
    requires Good(w) && !StillReading(w, key) && AboveLive(w, key, next) && AboveWaiting(w, key, next)
    ensures Good(Next(w, Resync(key, next)))
  {
    var w' := Next(w, Resync(key, next));
    hide KeyGood;
    assert KeyGood(w, key);
    ResyncKeepsKey(w, key, next);
    forall k | k != key ensures SameFor(w, w', k) {
      forall i | 0 <= i < |w.slots| ensures Waiters(w', i) == Waiters(w, i) {
      }
    }
    OneKeyGood(w, w', key);
  }

  lemma ResyncKeepsKey(w: World, key: string, next: nat)
    requires Indexed(w) && KeyGood(w, key)
    requires !StillReading(w, key) && AboveLive(w, key, next) && AboveWaiting(w, key, next)
    ensures KeyGood(Next(w, Resync(key, next)), key)
  {
    assert Shape(NonceValue(Some(next), [], {}), next);
    hide Shape, NextBelow;
    assert StatesOk(Next(w, Resync(key, next)), key) && Ready(Next(w, Resync(key, next)), key);
    ResyncKeepsWaiting(w, key, next);
    ResyncKeepsLive(w, key, next);
    hide *;
  }

  lemma ResyncKeepsWaiting(w: World, key: string, next: nat)
    requires Indexed(w) && WaitingOk(w, key) && AboveWaiting(w, key, next) && Ready(Next(w, Resync(key, next)), key)
    ensures WaitingOk(Next(w, Resync(key, next)), key)
  {
    hide NextBelow, Ready;
    var w', n := Next(w, Resync(key, next)), |w.slots|;
    forall i | 0 <= i < n ensures w'.slots[i] == w.slots[i] && Waiters(w', i) == Waiters(w, i) {
    }
    forall t, u | Newer(w', t, u) && w'.slots[t].key == key
      ensures NextBelow(w'.slots[t].value, |Waiters(w', t)|, w'.slots[u].first)
    {
      assert u < n ==> Newer(w, t, u);
    }
  }

  lemma ResyncKeepsLive(w: World, key: string, next: nat)
    requires Indexed(w) && LiveOk(w, key) && AboveLive(w, key, next) && Ready(Next(w, Resync(key, next)), key)
    ensures LiveOk(Next(w, Resync(key, next)), key)
  {
    hide Ready;
    var w', n := Next(w, Resync(key, next)), |w.slots|;
    forall i | i in w'.live && w'.live[i].key == key ensures exists b :: Born(w', w'.live[i], b) {
      var b :| Born(w, w.live[i], b);
      assert forall u :: Newer(w', b, u) ==> u == n || Newer(w, b, u);
      assert Born(w', w.live[i], b);
    }
  }

  /** Every disciplined step keeps the invariant. */
  lemma StepKeepsGood(w: World, s: Step)
    requires Good(w) && Enabled(w, s) && Disciplined(w, s)
    ensures Good(Next(w, s))
  {
    GoodIsUnique(w);
    match s
    case Begin(id, key) => BeginGood(w, id, key);
    case Resolve(_, _) => InitGood(w, s);
    case Reject(_) => InitGood(w, s);
    case Finish(id) => FinishGood(w, id);
    case Release(id, r) => ReleaseGood(w, id, r);
    case Abandon(id) => ForgettingGood(w, Next(w, s));
    case Resync(key, next) => ResyncGood(w, key, next);
  }

  /** Over any interleaving of disciplined steps, no two live reservations of an account share a
      nonce, and each state's active and released nonces are disjoint and gap-free. */
  lemma {:induction false} RunsAreSafe(w: World, steps: seq<Step>)
    requires Good(w) && Legal(w, steps)
    ensures Good(Run(w, steps)) && Unique(Run(w, steps))
    decreases |steps|
  {
    if steps == [] {
      GoodIsUnique(w);
    } else {
      StepKeepsGood(w, steps[0]);
      RunsAreSafe(Next(w, steps[0]), steps[1..]);
    }
  }

  lemma StartIsGood()
    ensures Good(Start)
  {
  }

  /** A finished reserve gets the smallest nonce free in the state that it captured. */
  lemma ReserveGetsSmallestFree(w: World, id: nat)
    requires Good(w) && Enabled(w, Finish(id)) && w.slots[w.waiting[id]].status == Resolved
    ensures var slot := w.slots[w.waiting[id]];
            var w' := Next(w, Finish(id));
            && id in w'.live && w'.live[id].key == slot.key
            && slot.first <= w'.live[id].nonce && w'.live[id].nonce !in slot.value.active
            && forall n: nat :: slot.first <= n < w'.live[id].nonce ==> n in slot.value.active
  {
    var slot := w.slots[w.waiting[id]];
    assert KeyGood(w, slot.key);
    TakeSmallestFree(slot.value, slot.first);
  }

  /** A nonce that is active stays so, and is not handed out again, whatever its account's callers do, until
      it is released or its account resynchronised. This holds also for one that nobody holds any more. */
  lemma ActiveIsKept(w: World, s: Step, key: string, nonce: nat)
    requires Good(w) && Enabled(w, s) && Ready(w, key) && ActiveNow(w, Reservation(key, nonce))
    requires !(s.Resync? && s.key == key) && !(s.Release? && s.reservation == Reservation(key, nonce))
    ensures Ready(Next(w, s), key) && ActiveNow(Next(w, s), Reservation(key, nonce))
    ensures forall i :: i in Next(w, s).live && i !in w.live ==> Next(w, s).live[i] != Reservation(key, nonce)
  {
    match s
    case Finish(id) => FinishKeepsActive(w, id, key, nonce);
    case Release(id, r) => ReleaseKeepsActive(w, id, r, key, nonce);
    case Resolve(_, _) => InitKeepsActive(w, s, key, nonce);
    case Reject(_) => InitKeepsActive(w, s, key, nonce);
    case _ => hide Good, Shape;
  }

  lemma FinishKeepsActive(w: World, id: nat, key: string, nonce: nat)
    requires Good(w) && Enabled(w, Finish(id)) && Ready(w, key) && ActiveNow(w, Reservation(key, nonce))
    ensures var w' := Next(w, Finish(id));
            && Ready(w', key) && ActiveNow(w', Reservation(key, nonce))
            && forall i :: i in w'.live && i !in w.live ==> w'.live[i] != Reservation(key, nonce)
  {
    if w.slots[w.waiting[id]].status == Resolved {
      TakenIsNotActive(w, id, key, nonce);
    }
    hide Good, Take, Shape;
  }

  lemma TakenIsNotActive(w: World, id: nat, key: string, nonce: nat)
    requires Good(w) && id in w.waiting && w.slots[w.waiting[id]].status == Resolved
    requires Ready(w, key) && ActiveNow(w, Reservation(key, nonce))
    ensures var slot := w.slots[w.waiting[id]];
            var (value, taken) := Take(slot.value);
            && taken.Some? && Shape(value, slot.first) && slot.value.active <= value.active
            && (slot.key == key ==> taken.value != nonce)
  {
    var t, c := w.waiting[id], w.states[key];
    assert KeyGood(w, key) && KeyGood(w, w.slots[t].key);
    TakenIsNew(w, id);
    TakeSmallestFree(w.slots[t].value, w.slots[t].first);
    hide Take, NextBelow;
    assert t < c && w.slots[t].key == key ==> Newer(w, t, c);
  }

  lemma ReleaseKeepsActive(w: World, id: nat, r: Reservation, key: string, nonce: nat)
    requires Good(w) && Ready(w, key) && ActiveNow(w, Reservation(key, nonce)) && r != Reservation(key, nonce)
    ensures var w' := Next(w, Release(id, r));
            && Ready(w', key) && ActiveNow(w', Reservation(key, nonce))
            && forall i :: i in w'.live ==> i in w.live
  {
    if r.key in w.states {
      var d := w.states[r.key];
      assert KeyGood(w, r.key);
      if w.slots[d].status == Resolved {
        GiveBackFrees(w.slots[d].value, w.slots[d].first, r.nonce);
      }
    }
    hide Good, KeyGood, GiveBack, Shape;
  }

  lemma InitKeepsActive(w: World, s: Step, key: string, nonce: nat)
    requires Good(w) && Enabled(w, s) && (s.Resolve? || s.Reject?)
    requires Ready(w, key) && ActiveNow(w, Reservation(key, nonce))
    ensures Ready(Next(w, s), key) && ActiveNow(Next(w, s), Reservation(key, nonce)) && Next(w, s).live == w.live
  {
    assert KeyGood(w, w.slots[s.slot].key);
    ReadingIsIdle(w, s.slot);
    hide Good, KeyGood, Shape;
  }

  /** The state of a key was made by it; every step keeps this, disciplined or not. */
  ghost predicate Keyed(w: World)
    requires Indexed(w)
  {
    forall k :: k in w.states ==> w.slots[w.states[k]].key == k
  }

  lemma StepKeepsSlotKeys(w: World, s: Step)
    requires Indexed(w) && Enabled(w, s)
    ensures |w.slots| <= |Next(w, s).slots|
    ensures forall i :: 0 <= i < |w.slots| ==> Next(w, s).slots[i].key == w.slots[i].key
  {
    hide Take, GiveBack;
  }

  lemma StepKeepsKeyed(w: World, s: Step)
    requires Indexed(w) && Keyed(w) && Enabled(w, s)
    ensures Keyed(Next(w, s))
  {
    StepKeepsSlotKeys(w, s);
    StatesOfStep(w, s);
    hide Next;
    var w' := Next(w, s);
    forall k | k in w'.states ensures w'.slots[w'.states[k]].key == k {
      assert k in w.states ==> w.slots[w.states[k]].key == k;
    }
  }

  /** A key keeps its state, unless the step just made it a new one. */
  lemma StatesOfStep(w: World, s: Step)
    requires Indexed(w) && Enabled(w, s)
    ensures var w' := Next(w, s);
            forall k :: k in w'.states ==>
              || (k in w.states && w'.states[k] == w.states[k])
              || (w'.states[k] == |w.slots| < |w'.slots| && w'.slots[|w.slots|].key == k)
  {
    hide Take, GiveBack;
  }

  // ----- exactly when a resync or a late release is harmless -----

  ghost predicate SafeForever(w: World)
    requires Indexed(w)
  {
    forall steps :: Legal(w, steps) ==> Unique(Run(w, steps))
  }

  lemma UnusedId(w: World) returns (id: nat)
    ensures id !in w.live && id !in w.waiting
  {
    id := AboveAll(w.live.Keys + w.waiting.Keys);
  }

  lemma {:induction false} AboveAll(ids: set<nat>) returns (bound: nat)
    ensures forall i :: i in ids ==> i < bound
    decreases ids
  {
    if ids == {} {
      bound := 0;
    } else {
      var x :| x in ids;
      var b := AboveAll(ids - {x});
      bound := if b <= x then x + 1 else b;
      forall i | i in ids ensures i < bound {
        assert i != x ==> i in ids - {x};
      }
    }
  }

  /** A whole reserve on a ready key. */
  lemma ReserveOnce(w: World, key: string, id: nat) returns (w2: World)
    requires Indexed(w) && Ready(w, key) && id !in w.waiting && id !in w.live
    ensures RunsTo(w, [Begin(id, key), Finish(id)], w2)
    ensures var current := w.states[key];
            var (value, taken) := Take(w.slots[current].value);
            && taken.Some? && Ready(w2, key)
            && w2.live == w.live[id := Reservation(key, taken.value)] && w2.states == w.states
            && w2.slots == w.slots[current := w.slots[current].(value := value)]
  {
    var slot := w.slots[w.states[key]];
    TakeSmallestFree(slot.value, slot.first);
    var w1 := Next(w, Begin(id, key));
    w2 := Next(w1, Finish(id));
    TwoSteps(w, Begin(id, key), Finish(id), w2);
  }

  /** From a ready key, enough further reserves hand out any given inactive nonce of the state. */
  lemma {:induction false} NonceIsReached(w: World, key: string, nonce: nat, lowest: nat)
    returns (steps: seq<Step>, id: nat)
    requires Indexed(w) && Ready(w, key)
    requires var slot := w.slots[w.states[key]];
             && slot.first <= lowest <= nonce && nonce !in slot.value.active
             && forall n: nat :: slot.first <= n < lowest ==> n in slot.value.active
    ensures Legal(w, steps)
    ensures var w' := Run(w, steps);
            && id !in w.live && id in w'.live && w'.live[id] == Reservation(key, nonce)
            && forall i :: i in w.live ==> i in w'.live && w'.live[i] == w.live[i]
    decreases nonce - lowest
  {
    var unused := UnusedId(w);
    var slot := w.slots[w.states[key]];
    TakeSmallestFree(slot.value, slot.first);
    var taken := Take(slot.value).1.value;
    var two := [Begin(unused, key), Finish(unused)];
    var w2 := ReserveOnce(w, key, unused);
    if taken == nonce {
      steps, id := two, unused;
    } else {
      hide Next, Take;
      var more, last := NonceIsReached(w2, key, nonce, taken + 1);
      steps, id := two + more, last;
      RunConcat(w, two, w2, more, Run(w2, more));
    }
  }

  lemma CollisionBreaksSafety(w: World, key: string, nonce: nat, holder: nat)
    requires Indexed(w) && Ready(w, key)
    requires holder in w.live && w.live[holder] == Reservation(key, nonce)
    requires var slot := w.slots[w.states[key]]; slot.first <= nonce && nonce !in slot.value.active
    ensures !SafeForever(w)
  {
    var steps, id := NonceIsReached(w, key, nonce, w.slots[w.states[key]].first);
    assert !Unique(Run(w, steps));
  }

  lemma GoodIsSafeForever(w: World)
    requires Good(w)
    ensures SafeForever(w)
  {
    forall steps | Legal(w, steps) ensures Unique(Run(w, steps)) {
      RunsAreSafe(w, steps);
    }
  }

  lemma UnsafeLater(w: World, steps: seq<Step>, w': World)
    requires RunsTo(w, steps, w') && !SafeForever(w')
    ensures !SafeForever(w)
  {
    var more :| Legal(w', more) && !Unique(Run(w', more));
    RunConcat(w, steps, w', more, Run(w', more));
    assert Legal(w, steps + more) && !Unique(Run(w, steps + more));
  }

  /** If what waiting callers will take is not all below a bound, they can be settled until one of them
      holds a nonce at or above it. */
  lemma {:induction false} WaitersReach(w: World, key: string, t: nat, bound: nat)
    returns (steps: seq<Step>, w': World, id: nat)
    requires Indexed(w) && Ready(w, key) && t < |w.slots| && t != w.states[key]
    requires w.slots[t].key == key && w.slots[t].status == Resolved && Shape(w.slots[t].value, w.slots[t].first)
    requires !NextBelow(w.slots[t].value, |Waiters(w, t)|, bound)
    ensures RunsTo(w, steps, w') && Ready(w', key)
    ensures w'.states == w.states && w'.slots[w.states[key]] == w.slots[w.states[key]]
    ensures id in w'.live && w'.live[id].key == key && w'.live[id].nonce >= bound
    decreases |Waiters(w, t)|
  {
    assert Waiters(w, t) != {};
    id :| id in Waiters(w, t);
    var finish := Finish(id);
    var w1 := Next(w, finish);
    WaiterTakes(w, key, t, id);
    OneStep(w, finish);
    hide Next, Shape, Take, RunsTo, Ready;
    if Take(w.slots[t].value).1.value >= bound {
      steps, w' := [finish], w1;
    } else {
      var more;
      more, w', id := WaitersReach(w1, key, t, bound);
      RunConcat(w, [finish], w1, more, w');
      steps := [finish] + more;
    }
  }

  lemma WaiterTakes(w: World, key: string, t: nat, id: nat)
    requires Indexed(w) && Ready(w, key) && t < |w.slots| && t != w.states[key] && id in Waiters(w, t)
    requires w.slots[t].key == key && w.slots[t].status == Resolved && Shape(w.slots[t].value, w.slots[t].first)
    ensures var w1, (value, taken) := Next(w, Finish(id)), Take(w.slots[t].value);
            && taken.Some? && Shape(value, w.slots[t].first) && w1.slots == w.slots[t := w.slots[t].(value := value)]
            && w1.states == w.states && w1.live == w.live[id := Reservation(key, taken.value)]
            && Waiters(w1, t) == Waiters(w, t) - {id} && Ready(w1, key)
  {
    TakeSmallestFree(w.slots[t].value, w.slots[t].first);
    hide Shape, Take;
    assert Waiters(Next(w, Finish(id)), t) == Waiters(w, t) - {id};
  }

  /** A whole reserve on a key without a state. */
  lemma FirstReserve(w: World, key: string, id: nat, nonce: nat) returns (steps: seq<Step>, w': World)
    requires Indexed(w) && key !in w.states && id !in w.waiting && id !in w.live
    ensures RunsTo(w, steps, w') && w'.live == w.live[id := Reservation(key, nonce)]
  {
    var begin, read := Begin(id, key), Resolve(|w.slots|, nonce);
    var w2 := Next(Next(w, begin), read);
    TwoSteps(w, begin, read, w2);
    assert w2.slots[|w.slots|].value == NonceValue(Some(nonce), [], {});
    OneStep(w2, Finish(id));
    w' := Next(w2, Finish(id));
    RunConcat(w, [begin, read], w2, [Finish(id)], w');
    steps := [begin, read] + [Finish(id)];
  }

  /** A resync while the first nonce is still being read: when that read fails it drops the new state,
      and then a later one can hand out the same nonces again. */
  lemma StaleReadCollides(w: World, key: string, next: nat)
    requires Indexed(w) && StillReading(w, key) && w.slots[w.states[key]].key == key
    ensures !SafeForever(Next(w, Resync(key, next)))
  {
    var c, w1 := w.states[key], Next(w, Resync(key, next));
    assert Shape(NonceValue(Some(next), [], {}), next);
    hide Shape;
    var first, w2, i := ReserveThenReject(w1, key, c, next);
    hide Next;
    var j := UnusedId(w2);
    var more, w3 := FirstReserve(w2, key, j, next);
    RunConcat(w1, first, w2, more, w3);
    assert w3.live[i] == w3.live[j] && i != j;
    assert Legal(w1, first + more) && !Unique(Run(w1, first + more));
  }

  /** A caller takes the first nonce of a new state, and then the read of an older one fails. */
  lemma ReserveThenReject(w: World, key: string, c: nat, next: nat) returns (steps: seq<Step>, w': World, i: nat)
    requires Indexed(w) && Ready(w, key) && w.slots[w.states[key]].value == NonceValue(Some(next), [], {})
    requires c < |w.slots| && c != w.states[key] && w.slots[c].key == key && w.slots[c].status == Pending
    ensures RunsTo(w, steps, w') && key !in w'.states && i in w'.live && w'.live[i] == Reservation(key, next)
  {
    i := UnusedId(w);
    hide Shape;
    var w1 := ReserveOnce(w, key, i);
    OneStep(w1, Reject(c));
    w' := Next(w1, Reject(c));
    RunConcat(w, [Begin(i, key), Finish(i)], w1, [Reject(c)], w');
    steps := [Begin(i, key), Finish(i)] + [Reject(c)];
  }

  /** A resync is harmless for ever exactly when no first nonce of the account is being read, and its
      nonce is above every live one and above all that callers in flight will still take. */
  lemma ResyncSafeIff(w: World, key: string, next: nat)
    requires Good(w)
    ensures SafeForever(Next(w, Resync(key, next))) <==>
            !StillReading(w, key) && AboveLive(w, key, next) && AboveWaiting(w, key, next)
  {
    hide Take, NextBelow;
    var w' := Next(w, Resync(key, next));
    assert Shape(NonceValue(Some(next), [], {}), next);
    hide Shape;
    if StillReading(w, key) {
      assert KeyGood(w, key);
      StaleReadCollides(w, key, next);
    } else if !AboveLive(w, key, next) {
      var id :| id in w.live && w.live[id].key == key && w.live[id].nonce >= next;
      CollisionBreaksSafety(w', key, w.live[id].nonce, id);
    } else if !AboveWaiting(w, key, next) {
      var t :| 0 <= t < |w.slots| && w.slots[t].key == key && w.slots[t].status == Resolved
               && !NextBelow(w.slots[t].value, |Waiters(w, t)|, next);
      assert KeyGood(w, key);
      assert w'.slots[t] == w.slots[t] && Waiters(w', t) == Waiters(w, t);
      var steps, w2, id := WaitersReach(w', key, t, next);
      CollisionBreaksSafety(w2, key, w2.live[id].nonce, id);
      UnsafeLater(w', steps, w2);
    } else {
      ResyncGood(w, key, next);
      GoodIsSafeForever(w');
    }
  }

  /** Releasing a reservation that is no longer live is harmless for ever exactly when no live
      reservation has meanwhile been given the same nonce by the current state. */
  lemma LateReleaseSafeIff(w: World, id: nat, r: Reservation)
    requires Good(w) && (id !in w.live || w.live[id] != r)
    ensures SafeForever(Next(w, Release(id, r))) <==>
            r.key !in w.states
            || !exists i :: i in w.live && w.live[i] == r && w.slots[w.states[r.key]].first <= r.nonce
  {
    hide NextBelow;
    var w' := Next(w, Release(id, r));
    if r.key !in w.states {
      GoodIsSafeForever(w);
    } else if i :| i in w.live && w.live[i] == r && w.slots[w.states[r.key]].first <= r.nonce {
      LiveIsBacked(w, i);
      var slot := w.states[r.key];
      GiveBackFrees(w.slots[slot].value, w.slots[slot].first, r.nonce);
      CollisionBreaksSafety(w', r.key, r.nonce, i);
    } else {
      forall i | i in w.live && w.live[i] == r ensures !ActiveNow(w, r) {
        LiveIsBacked(w, i);
      }
      ReleaseGood(w, id, r);
      GoodIsSafeForever(w');
    }
  }

  /** A reservation made before a resync (below the new state's first nonce) frees nothing. */
  lemma StaleReleaseChangesNothing(w: World, id: nat)
    requires Good(w) && id in w.live && w.live[id].key in w.states
    requires w.live[id].nonce < w.slots[w.states[w.live[id].key]].first
    ensures Next(w, Release(id, w.live[id])) == w.(live := w.live - {id})
  {
    var r := w.live[id];
    LiveIsBacked(w, id);
    var slot := w.slots[w.states[r.key]];
    assert r.nonce !in slot.value.active;
    assert w.slots[w.states[r.key] := slot] == w.slots;
  }

  ghost predicate RunsTo(w: World, steps: seq<Step>, w': World) {
    Indexed(w) && Legal(w, steps) && Run(w, steps) == w'
  }

  lemma {:induction false} RunConcat(a: World, s: seq<Step>, b: World, t: seq<Step>, c: World)
    requires RunsTo(a, s, b) && RunsTo(b, t, c)
    ensures RunsTo(a, s + t, c)
    decreases |s|
  {
    if s == [] {
      assert s + t == t;
    } else {
      assert (s + t)[0] == s[0] && (s + t)[1..] == s[1..] + t;
      RunConcat(Next(a, s[0]), s[1..], b, t, c);
    }
  }

  lemma OneStep(w: World, s: Step)
    requires Indexed(w) && Enabled(w, s) && Disciplined(w, s)
    ensures RunsTo(w, [s], Next(w, s))
  {
    assert [s][1..] == [];
    assert Legal(Next(w, s), []) && Run(Next(w, s), []) == Next(w, s);
  }

  lemma TwoSteps(w: World, first: Step, second: Step, w': World)
    requires Indexed(w) && Enabled(w, first) && Disciplined(w, first)
    requires Enabled(Next(w, first), second) && Disciplined(Next(w, first), second)
    requires Next(Next(w, first), second) == w'
    ensures RunsTo(w, [first, second], w')
  {
    var steps := [first, second];
    assert steps[1..] == [second] && steps[1..][1..] == [];
    assert Legal(w', []) && Run(w', []) == w';
    assert Legal(Next(w, first), [second]) && Run(Next(w, first), [second]) == w';
  }

  /** The state of nonces from 7 on with nonce 7 handed out, or given back. */
  function Sevens(key: string, out: bool): Slot {
    Slot(key, Resolved, 7, NonceValue(Some(8), if out then [] else [7], if out then {7} else {}))
  }

  lemma TakeSeven(key: string)
    ensures Take(NonceValue(Some(7), [], {})) == (Sevens(key, true).value, Some(7))
    ensures Take(Sevens(key, false).value) == (Sevens(key, true).value, Some(7))
    ensures GiveBack(Sevens(key, true).value, 7) == Sevens(key, false).value
  {
    var none: set<nat> := {};
    assert none + {7} == {7} && [7][1..] == [] && {7} - {7} == none;
    assert Ordered.SortBy<nat>([7], Identity) == [7] by {
      assert [7][..0] == [] && Ordered.SortBy<nat>([], Identity) == [];
    }
  }

  /** A reachable case: caller 0 reserves nonce 7 and releases it, caller 1 is given 7, and caller 0
      releases once more. From then on two callers can hold nonce 7. */
  lemma SecondReleaseCollides(key: string) returns (steps: seq<Step>)
    ensures Legal(Start, steps) && 0 !in Run(Start, steps).live
    ensures !SafeForever(Next(Run(Start, steps), Release(0, Reservation(key, 7))))
  {
    var s1 := [Begin(0, key), Resolve(0, 7)];
    var s2, s3 := [Finish(0), Release(0, Reservation(key, 7))], [Begin(1, key), Finish(1)];
    BeginThenResolve(key);
    FinishThenRelease(key);
    BeginThenFinish(key);
    hide RunsTo, Legal, Run;
    RunConcat(Start, s1, SevenRead(key), s2, SevenFreed(key));
    RunConcat(Start, s1 + s2, SevenFreed(key), s3, SevenReused(key));
    steps := s1 + s2 + s3;
    RunMeans(steps, SevenReused(key));
    StartIsGood();
    RunsAreSafe(Start, steps);
    SevenIsReused(key);
    hide SevenReused;
    LateReleaseSafeIff(SevenReused(key), 0, Reservation(key, 7));
  }

  lemma RunMeans(steps: seq<Step>, w: World)
    requires RunsTo(Start, steps, w)
    ensures Legal(Start, steps) && Run(Start, steps) == w
  {
  }

  function SevenRead(key: string): World {
    World([Slot(key, Resolved, 7, NonceValue(Some(7), [], {}))], map[key := 0], map[0 := 0], map[])
  }

  function SevenFreed(key: string): World {
    World([Sevens(key, false)], map[key := 0], map[], map[])
  }

  function SevenReused(key: string): World {
    World([Sevens(key, true)], map[key := 0], map[], map[1 := Reservation(key, 7)])
  }

  lemma SevenIsReused(key: string)
    ensures var w, r := SevenReused(key), Reservation(key, 7);
            && 0 !in w.live && 1 in w.live && w.live[1] == r && key in w.states && w.states[key] == 0
            && |w.slots| == 1 && w.slots[0].first == 7
  {
  }

  lemma BeginThenResolve(key: string)
    ensures RunsTo(Start, [Begin(0, key), Resolve(0, 7)], SevenRead(key))
  {
    TwoSteps(Start, Begin(0, key), Resolve(0, 7), SevenRead(key));
  }

  lemma BeginThenFinish(key: string)
    ensures RunsTo(SevenFreed(key), [Begin(1, key), Finish(1)], SevenReused(key))
  {
    TakeSeven(key);
    hide Take;
    TwoSteps(SevenFreed(key), Begin(1, key), Finish(1), SevenReused(key));
  }

  lemma FinishThenRelease(key: string)
    ensures RunsTo(SevenRead(key), [Finish(0), Release(0, Reservation(key, 7))], SevenFreed(key))
  {
    TakeSeven(key);
    hide Take, GiveBack;
    var r := Reservation(key, 7);
    var held := World([Sevens(key, true)], map[key := 0], map[], map[0 := r]);
    assert Next(SevenRead(key), Finish(0)) == held;
    assert Next(held, Release(0, r)) == SevenFreed(key);
    TwoSteps(SevenRead(key), Finish(0), Release(0, r), SevenFreed(key));
  }
}
