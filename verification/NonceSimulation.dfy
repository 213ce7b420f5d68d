// Each method of the nonce manager is one step of the protocol: its objects, seen in the order in which
// they were made, stay a picture of the protocol's states.

module NonceSimulation {
  import opened Options
  import opened Chains
  import opened Text
  import opened NonceManager

  /** The objects ever made are the protocol's states, and the map names the current ones. */
  ghost predicate Represents(m: LocalNonceManager, objects: seq<NonceState>, w: World)
    reads m, objects
  {
    m.Valid() && Indexed(w) && Different(objects) && Pictures(objects, w.slots) && Names(m.states, objects, w.states)
  }

  ghost predicate Different(objects: seq<NonceState>) {
    forall i, j :: 0 <= i < j < |objects| ==> objects[i] != objects[j]
  }

  ghost predicate Pictures(objects: seq<NonceState>, slots: seq<Slot>)
    reads objects
  {
    && |objects| == |slots|
    && forall i :: 0 <= i < |objects| ==>
         objects[i].initialized == slots[i].status && objects[i].Value() == slots[i].value
  }

  ghost predicate Names(current: map<string, NonceState>, objects: seq<NonceState>, states: map<string, nat>) {
    && current.Keys == states.Keys
    && forall k :: k in states ==> states[k] < |objects| && current[k] == objects[states[k]]
  }

  method StartOver() returns (m: LocalNonceManager)
    ensures fresh(m) && Represents(m, [], Start)
  {
    m := new LocalNonceManager();
  }

  method BeginIsAStep(
    m: LocalNonceManager, chain: SupportedChain, account: Address, ghost id: nat, ghost objects: seq<NonceState>,
    ghost w: World)
    returns (state: NonceState, ghost objects': seq<NonceState>)
    requires Represents(m, objects, w) && Enabled(w, Begin(id, ChainKey(chain, account)))
    modifies m
    ensures var w' := Next(w, Begin(id, ChainKey(chain, account)));
            && Represents(m, objects', w') && objects <= objects'
            && id in w'.waiting && state == objects'[w'.waiting[id]]
  {
    BeginMakes(w, id, ChainKey(chain, account));
    hide ChainKey, Next;
    state := m.BeginReserve(chain, account);
    ghost var key := ChainKey(chain, account);
    if key in w.states {
      objects' := objects;
    } else {
      objects' := objects + [state];
      OneMore(objects, state, w.slots, Slot(key, Pending, 0, Blank));
      OneMoreName(m.states, objects, w.states, key, state);
      hide Different, Pictures, Names;
    }
  }

  lemma OneMoreName(current: map<string, NonceState>, objects: seq<NonceState>, states: map<string, nat>, key: string,
      state: NonceState)
    requires key !in states && Names(current - {key}, objects, states) && key in current && current[key] == state
    ensures Names(current, objects + [state], states[key := |objects|])
  {
    assert forall k :: k in states ==> k in current - {key};
    assert current.Keys == (current - {key}).Keys + {key};
  }

  /** What the steps make of the protocol's states. */
  lemma BeginMakes(w: World, id: nat, key: string)
    requires Indexed(w) && Enabled(w, Begin(id, key))
    ensures var w' := Next(w, Begin(id, key));
            && id in w'.waiting
            && if key in w.states then w'.slots == w.slots && w'.states == w.states && w'.waiting[id] == w.states[key]
               else w'.slots == w.slots + [Slot(key, Pending, 0, Blank)]
                    && w'.states == w.states[key := |w.slots|] && w'.waiting[id] == |w.slots|
  {
  }

  lemma FinishMakes(w: World, id: nat)
    requires Indexed(w) && Enabled(w, Finish(id))
    ensures var w', t := Next(w, Finish(id)), w.waiting[id];
            var (value, taken) := Take(w.slots[t].value);
            && w'.states == w.states
            && if w.slots[t].status == Rejected then w'.slots == w.slots && w'.live == w.live
               else w'.slots == w.slots[t := w.slots[t].(value := value)]
                    && w'.live == if taken.None? then w.live
                                  else w.live[id := Reservation(w.slots[t].key, taken.value)]
  {
    assert Take(w.slots[w.waiting[id]].value).1.None? ==>
        Take(w.slots[w.waiting[id]].value).0 == w.slots[w.waiting[id]].value;
    hide Take;
  }

  lemma ReleaseMakes(w: World, id: nat, r: Reservation)
    requires Indexed(w)
    ensures var w' := Next(w, Release(id, r));
            && w'.states == w.states && |w'.slots| == |w.slots|
            && forall i :: 0 <= i < |w.slots| ==>
                 && w'.slots[i].status == w.slots[i].status
                 && w'.slots[i].value == if r.key in w.states && i == w.states[r.key]
                                         then GiveBack(w.slots[i].value, r.nonce) else w.slots[i].value
  {
    hide GiveBack;
  }

  /** One more object is a picture of one more state. */
  lemma OneMore(objects: seq<NonceState>, state: NonceState, slots: seq<Slot>, slot: Slot)
    requires Different(objects) && Pictures(objects, slots)
    ensures state.initialized == slot.status && state.Value() == slot.value ==>
              Pictures(objects + [state], slots + [slot])
    ensures state !in objects ==> Different(objects + [state])
  {
  }

  method ResolveIsAStep(
    m: LocalNonceManager, state: NonceState, nonce: nat, ghost slot: nat, ghost objects: seq<NonceState>,
    ghost w: World)
    requires Represents(m, objects, w) && Enabled(w, Resolve(slot, nonce)) && state == objects[slot]
    modifies state
    ensures Represents(m, objects, Next(w, Resolve(slot, nonce)))
  {
    m.InitResolved(state, nonce);
  }

  method RejectIsAStep(
    m: LocalNonceManager, chain: SupportedChain, account: Address, state: NonceState, ghost slot: nat,
    ghost objects: seq<NonceState>, ghost w: World)
    requires Represents(m, objects, w) && Enabled(w, Reject(slot)) && state == objects[slot]
    requires w.slots[slot].key == ChainKey(chain, account)
    modifies m, state
    ensures Represents(m, objects, Next(w, Reject(slot)))
  {
    m.InitRejected(chain, account, state);
  }

  /** The nonce that the caller gets is the one its reservation then holds; none if it gets none. */
  method FinishIsAStep(
    m: LocalNonceManager, state: NonceState, ghost id: nat, ghost objects: seq<NonceState>, ghost w: World)
    returns (nonce: Option<nat>)
    requires Represents(m, objects, w) && Enabled(w, Finish(id)) && state == objects[w.waiting[id]]
    modifies state
    ensures var w' := Next(w, Finish(id));
            && Represents(m, objects, w')
            && w'.live == match nonce
                          case None => w.live
                          case Some(n) => w.live[id := Reservation(w.slots[w.waiting[id]].key, n)]
  {
    FinishMakes(w, id);
    hide Next, Take;
    nonce := m.FinishReserve(state);
  }

  method ReleaseIsAStep(
    m: LocalNonceManager, chain: SupportedChain, account: Address, nonce: nat, ghost id: nat,
    ghost objects: seq<NonceState>, ghost w: World)
    requires Represents(m, objects, w)
    modifies m.states.Values
    ensures Represents(m, objects, Next(w, Release(id, Reservation(ChainKey(chain, account), nonce))))
  {
    ReleaseMakes(w, id, Reservation(ChainKey(chain, account), nonce));
    hide ChainKey, Next, GiveBack;
    ghost var key, current := ChainKey(chain, account), m.states;
    m.Release(chain, account, nonce);
    forall i | 0 <= i < |objects|
      ensures objects[i].initialized == w.slots[i].status
      ensures objects[i].Value() == if key in w.states && i == w.states[key]
                                    then GiveBack(w.slots[i].value, nonce) else w.slots[i].value
    {
      if k :| k in w.states && w.states[k] == i {
        assert current[k] == objects[i];
      } else {
        assert objects[i] !in current.Values;
      }
    }
  }

  method ResyncIsAStep(
    m: LocalNonceManager, chain: SupportedChain, account: Address, next: nat, ghost objects: seq<NonceState>,
    ghost w: World)
    returns (ghost objects': seq<NonceState>)
    requires Represents(m, objects, w)
    modifies m
    ensures Represents(m, objects', Next(w, Resync(ChainKey(chain, account), next))) && objects <= objects'
  {
    hide ChainKey;
    m.Resync(chain, account, next);
    ghost var state := m.states[ChainKey(chain, account)];
    objects' := objects + [state];
    OneMore(objects, state, w.slots, Slot(ChainKey(chain, account), Resolved, next, NonceValue(Some(next), [], {})));
  }
}
