/**
 The block-preferences state of the mobile client: four boolean toggles, one
 per blockable category, and the reducer that React's `useReducer` drives with
 `set` and `reset` actions. The reducer is pure; the store it belongs to is
 React's and is represented here only by folding a sequence of actions.
 */
module BlockPreferences {

  /** The closed set of blockable categories. */
  datatype ToggleKey = YoutubeShorts | InstagramReels | Tiktok | SocialMediaGeneral

  /** A record with one boolean per toggle key; every key is always present. */
  datatype ToggleState = ToggleState(
    youtubeShorts: bool,
    instagramReels: bool,
    tiktok: bool,
    socialMediaGeneral: bool)

  /** The two kinds of action the reducer receives. */
  datatype Action = Set(key: ToggleKey, value: bool) | Reset

  /** Looking up one key of the record (`state[key]`). */
  function Get(state: ToggleState, key: ToggleKey): bool {
    match key
    case YoutubeShorts => state.youtubeShorts
    case InstagramReels => state.instagramReels
    case Tiktok => state.tiktok
    case SocialMediaGeneral => state.socialMediaGeneral
  }

  /** The initial record: nothing is blocked. */
  const DefaultToggles: ToggleState := ToggleState(false, false, false, false)

  /** Every key of the default record is off. */
  lemma DefaultAllFalse()
    ensures forall k :: !Get(DefaultToggles, k)
  {
  }

  /** Two records that agree on every key are the same record. */
  lemma {:induction false} StateExtensionality(a: ToggleState, b: ToggleState)
    requires forall k :: Get(a, k) == Get(b, k)
    ensures a == b
  {
    assert Get(a, YoutubeShorts) == Get(b, YoutubeShorts);
    assert Get(a, InstagramReels) == Get(b, InstagramReels);
    assert Get(a, Tiktok) == Get(b, Tiktok);
    assert Get(a, SocialMediaGeneral) == Get(b, SocialMediaGeneral);
  }

  /**
   The reducer: `reset` yields the default record whatever the state; `set`
   yields a copy of the state with exactly the named key overwritten.
   */
  function Reducer(state: ToggleState, action: Action): (r: ToggleState)
    ensures action.Reset? ==> r == DefaultToggles
    ensures action.Set? ==> Get(r, action.key) == action.value
    ensures action.Set? ==> forall k :: k != action.key ==> Get(r, k) == Get(state, k)
  {
    match action
    case Reset => DefaultToggles
    case Set(key, value) =>
      match key
      case YoutubeShorts => state.(youtubeShorts := value)
      case InstagramReels => state.(instagramReels := value)
      case Tiktok => state.(tiktok := value)
      case SocialMediaGeneral => state.(socialMediaGeneral := value)
  }

  /** Applying the same `set` twice is the same as applying it once. */
  lemma SetIdempotent(state: ToggleState, key: ToggleKey, value: bool)
    ensures Reducer(Reducer(state, Set(key, value)), Set(key, value)) == Reducer(state, Set(key, value))
  {
  }

  /** A later `set` of a key overrides an earlier `set` of the same key. */
  lemma SetOverwrites(state: ToggleState, key: ToggleKey, v1: bool, v2: bool)
    ensures Reducer(Reducer(state, Set(key, v1)), Set(key, v2)) == Reducer(state, Set(key, v2))
  {
  }

  /** `set` actions on two different keys commute. */
  lemma SetCommutes(state: ToggleState, k1: ToggleKey, v1: bool, k2: ToggleKey, v2: bool)
    requires k1 != k2
    ensures Reducer(Reducer(state, Set(k1, v1)), Set(k2, v2))
         == Reducer(Reducer(state, Set(k2, v2)), Set(k1, v1))
  {
  }

  /** A `set` leaves the state as it was exactly when the key already holds the value. */
  lemma SetUnchangedIff(state: ToggleState, key: ToggleKey, value: bool)
    ensures Reducer(state, Set(key, value)) == state <==> Get(state, key) == value
  {
  }

  /**
   The state after dispatching `actions` in order, starting from `state`.
   The last action decides: a final `reset` gives the default record, and a
   final `set` leaves its key holding its value.
   */
  function Run(state: ToggleState, actions: seq<Action>): (r: ToggleState)
    ensures actions == [] ==> r == state
    ensures actions != [] && actions[|actions| - 1].Reset? ==> r == DefaultToggles
    ensures actions != [] && actions[|actions| - 1].Set? ==>
              Get(r, actions[|actions| - 1].key) == actions[|actions| - 1].value
    decreases |actions|
  {
    if actions == [] then state else Run(Reducer(state, actions[0]), actions[1..])
  }

  /** Dispatching `a` and then `b` is dispatching their concatenation. */
  lemma {:induction false} RunConcat(state: ToggleState, a: seq<Action>, b: seq<Action>)
    ensures Run(state, a + b) == Run(Run(state, a), b)
    decreases |a|
  {
    if a == [] {
      assert a + b == b;
    } else {
      assert (a + b)[0] == a[0];
      assert (a + b)[1..] == a[1..] + b;
      RunConcat(Reducer(state, a[0]), a[1..], b);
    }
  }

  /** Dispatching one more action applies the reducer once more. */
  lemma RunSnoc(state: ToggleState, a: seq<Action>, x: Action)
    ensures Run(state, a + [x]) == Reducer(Run(state, a), x)
  {
    RunConcat(state, a, [x]);
    assert [x][1..] == [];
  }

  /** Whatever came before, a sequence of actions that ends in `reset` yields the default record. */
  lemma EndsInReset(state: ToggleState, a: seq<Action>)
    ensures Run(state, a + [Reset]) == DefaultToggles
  {
  }

  /** A `reset` forgets all history: what follows it starts afresh from the default record. */
  lemma ResetForgetsHistory(state: ToggleState, a: seq<Action>, b: seq<Action>)
    ensures Run(state, a + [Reset] + b) == Run(DefaultToggles, b)
  {
    RunConcat(state, a + [Reset], b);
    EndsInReset(state, a);
  }

  /**
   Reference meaning of a key after a sequence of actions, read from the end:
   the value of the last `set` of that key, `false` if a `reset` comes later
   than any such `set`, and the starting value if neither occurs.
   */
  function LastWrite(state: ToggleState, actions: seq<Action>, key: ToggleKey): bool
    decreases |actions|
  {
    if actions == [] then Get(state, key)
    else
      match actions[|actions| - 1]
      case Reset => false
      case Set(k, v) => if k == key then v else LastWrite(state, actions[..|actions| - 1], key)
  }

  /** Folding the reducer agrees, key by key, with the reference meaning. */
  lemma {:induction false} RunMatchesLastWrite(state: ToggleState, actions: seq<Action>, key: ToggleKey)
    ensures Get(Run(state, actions), key) == LastWrite(state, actions, key)
    decreases |actions|
  {
    if actions != [] {
      var prefix := actions[..|actions| - 1];
      var last := actions[|actions| - 1];
      assert actions == prefix + [last];
      RunSnoc(state, prefix, last);
      RunMatchesLastWrite(state, prefix, key);
    }
  }

  /**
   From the Provider's initial record, a key is on after a sequence of actions
   exactly when some `set` turned it on and no later action touched it.
   */
  lemma FromDefaultOnIff(actions: seq<Action>, key: ToggleKey)
    ensures Get(Run(DefaultToggles, actions), key)
        <==> exists i :: 0 <= i < |actions| && actions[i] == Set(key, true) && NotTouchedAfter(actions, i, key)
  {
    RunMatchesLastWrite(DefaultToggles, actions, key);
    LastWriteOnIff(actions, key);
  }

  /** No action after index `i` is a `reset` or a `set` of `key`. */
  ghost predicate NotTouchedAfter(actions: seq<Action>, i: int, key: ToggleKey)
    requires 0 <= i < |actions|
  {
    forall j :: i < j < |actions| ==> actions[j] != Reset && !(actions[j].Set? && actions[j].key == key)
  }

  /** The reference meaning, from the default record, in terms of the last action touching the key. */
  lemma {:induction false} LastWriteOnIff(actions: seq<Action>, key: ToggleKey)
    ensures LastWrite(DefaultToggles, actions, key)
        <==> exists i :: 0 <= i < |actions| && actions[i] == Set(key, true) && NotTouchedAfter(actions, i, key)
    decreases |actions|
  {
    if actions != [] {
      var n := |actions| - 1;
      var prefix := actions[..n];
      LastWriteOnIff(prefix, key);
      match actions[n]
      case Reset =>
        assert !exists i :: 0 <= i < |actions| && actions[i] == Set(key, true) && NotTouchedAfter(actions, i, key) by {
          forall i | 0 <= i < n ensures !NotTouchedAfter(actions, i, key) {
            assert actions[n] == Reset;
          }
        }
      case Set(k, v) =>
        if k == key {
          if v {
            assert NotTouchedAfter(actions, n, key);
          } else {
            forall i | 0 <= i < n ensures !NotTouchedAfter(actions, i, key) {
              assert actions[n].Set? && actions[n].key == key;
            }
          }
        } else {
          forall i | 0 <= i < n
            ensures (actions[i] == Set(key, true) && NotTouchedAfter(actions, i, key))
                <==> (prefix[i] == Set(key, true) && NotTouchedAfter(prefix, i, key))
          {
            assert prefix[i] == actions[i];
            if NotTouchedAfter(prefix, i, key) {
              forall j | i < j < |actions|
                ensures actions[j] != Reset && !(actions[j].Set? && actions[j].key == key)
              {
                if j < n { assert actions[j] == prefix[j]; }
              }
            }
            if NotTouchedAfter(actions, i, key) {
              forall j | i < j < n
                ensures prefix[j] != Reset && !(prefix[j].Set? && prefix[j].key == key)
              {
                assert prefix[j] == actions[j];
              }
            }
          }
          assert actions[n] != Set(key, true);
        }
    }
  }
}
