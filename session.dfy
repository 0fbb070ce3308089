/**
 * The bridge coordinator of one device session as a pure state machine:
 * each handler of the coordinator is a function from the state before to
 * the state after. The class in module Bridge is proved to follow these
 * functions, and the lemmas below state what the handlers promise.
 */
module Session {
  import opened Wrappers
  import opened Text
  import opened KeySpec
  import opened Topics

  /** Everything the coordinator changes, including its recorded effects on the device and the bus. */
  datatype State = State(
    brightness: int,               // config["brightness"]
    keys: seq<Json>,               // config["keys"]
    devBrightness: int,            // the last value given to deck.set_brightness
    images: map<nat, IconSource>,  // the last image pushed to each key this session
    saved: Option<Config>,         // the contents of data.json, when known
    refreshCalls: seq<nat>,        // the keys update_key was entered for, in order
    subscriptions: seq<string>,    // topics subscribed, in order
    published: seq<string>)        // topics published, in order

  function ConfigOf(s: State): Config {
    Config(s.brightness, s.keys)
  }

  /**
   * What lies outside the coordinator: `json.loads` on a `/config` payload
   * (a list of entries, or failure), `json.loads` on a `/config/<i>` payload,
   * and whether fetching and rasterising an icon source succeeds.
   */
  datatype Env = Env(
    decodeKeys: string -> Option<seq<Json>>,
    decodeKey: string -> Option<Json>,
    renders: IconSource -> bool)

  /** A handler's outcome: the new state, and whether it returned without raising. */
  datatype Step = Step(after: State, ok: bool)

  function MapGet(m: map<nat, IconSource>, k: nat): Option<IconSource> {
    if k in m then Some(m[k]) else None
  }

  /**
   * The state right after construction: the loaded document, or brightness
   * 60 and one `{}` per key when `data.json` did not load.
   */
  function Initial(loaded: Option<Config>, keyCount: nat, deviceBrightness: int): (r: State)
    ensures r.saved == loaded && r.devBrightness == deviceBrightness
    ensures r.images == map[] && r.refreshCalls == [] && r.subscriptions == [] && r.published == []
    ensures loaded.Some? ==> ConfigOf(r) == loaded.value
    ensures loaded.None? ==> && r.brightness == DefaultBrightness && |r.keys| == keyCount
                             && forall i :: 0 <= i < keyCount ==> r.keys[i] == EmptyEntry
  {
    var c := loaded.GetOr(Config(DefaultBrightness, DefaultKeys(keyCount)));
    State(c.brightness, c.keys, deviceBrightness, map[], loaded, [], [], [])
  }

  /** The image `update_key` pushes for an entry, if any: its icon is a string and renders. */
  function Drawn(entry: Json, env: Env): Option<IconSource> {
    match IconOf(entry)
    case None => None
    case Some(icon) =>
      var src := SelectIcon(icon, ColorOf(entry));
      if src.Some? && env.renders(src.value) then src else None
  }

  /**
   * The key images after redrawing the keys in `visited`: each of them
   * shows its new image if it drew, every other key keeps the one it had.
   */
  ghost predicate ImagesFollow(after: map<nat, IconSource>, before: map<nat, IconSource>,
                               keys: seq<Json>, visited: seq<nat>, env: Env) {
    forall i: nat :: ImageAt(after, before, keys, visited, env, i)
  }

  /** The same for one key i. */
  predicate ImageAt(after: map<nat, IconSource>, before: map<nat, IconSource>,
                    keys: seq<Json>, visited: seq<nat>, env: Env, i: nat) {
    MapGet(after, i) ==
      if i < |keys| && i in visited && Drawn(keys[i], env).Some? then Drawn(keys[i], env)
      else MapGet(before, i)
  }

  /** The images after key k is redrawn: its new image if it draws, the old ones otherwise. */
  function Redraw(m: map<nat, IconSource>, keys: seq<Json>, k: nat, env: Env): map<nat, IconSource>
    requires k < |keys|
  {
    match Drawn(keys[k], env)
    case Some(src) => m[k := src]
    case None => m
  }

  lemma RedrawFollows(m: map<nat, IconSource>, keys: seq<Json>, k: nat, env: Env)
    requires k < |keys|
    ensures ImagesFollow(Redraw(m, keys, k, env), m, keys, [k], env)
  {
  }

  /**
   * `update_key(k)`: the icon lookup raises when the entry has no icon
   * (outside the try); rendering failures are caught and leave the key's
   * image as it was.
   */
  function UpdateKey(s: State, k: nat, env: Env): (r: Step)
    requires k < |s.keys|
    ensures r.after == s.(refreshCalls := s.refreshCalls + [k], images := r.after.images)
    ensures r.ok <==> IconOf(s.keys[k]).Some?
    ensures r.after.images == Redraw(s.images, s.keys, k, env)
  {
    var s1 := s.(refreshCalls := s.refreshCalls + [k]);
    if IconOf(s.keys[k]).None? then Step(s1, false)
    else
      match Drawn(s.keys[k], env)
      case Some(src) => Step(s1.(images := s1.images[k := src]), true)
      case None => Step(s1, true)
  }

  /** The call log and the outcome of a refresh pass. */
  datatype Trace = Trace(visited: seq<nat>, ok: bool)

  /**
   * The keys the loop of `update_keys` enters `update_key` for over entries
   * `0 .. n-1`, and whether it gets through without an exception. It
   * depends on the entries alone.
   */
  function PassTrace(keys: seq<Json>, n: nat): Trace
    requires n <= |keys|
    decreases n
  {
    if n == 0 then Trace([], true)
    else
      var t := PassTrace(keys, n - 1);
      if !t.ok || !Truthy(keys[n - 1]) then t
      else Trace(t.visited + [n - 1], IconOf(keys[n - 1]).Some?)
  }

  /** The key images after the loop of `update_keys` over entries `0 .. n-1`, read off the entries. */
  function PassImages(keys: seq<Json>, before: map<nat, IconSource>, n: nat, env: Env): map<nat, IconSource>
    requires n <= |keys|
    decreases n
  {
    if n == 0 then before
    else
      var m := PassImages(keys, before, n - 1, env);
      var t := PassTrace(keys, n - 1);
      if !t.ok || !Truthy(keys[n - 1]) then m
      else Redraw(m, keys, n - 1, env)
  }

  /**
   * The loop of `update_keys` over entries `0 .. n-1`, stopping at the first
   * exception. Only the call log and the key images change.
   */
  function RefreshUpTo(s: State, n: nat, env: Env): (r: Step)
    requires n <= |s.keys|
    ensures r.after == s.(refreshCalls := r.after.refreshCalls, images := r.after.images)
    decreases n
  {
    if n == 0 then Step(s, true)
    else
      var p := RefreshUpTo(s, n - 1, env);
      if !p.ok || !Truthy(s.keys[n - 1]) then p
      else UpdateKey(p.after, n - 1, env)
  }

  /** `update_keys()`: refresh every non-empty entry, in index order. */
  function UpdateKeys(s: State, env: Env): (r: Step)
    ensures r.after == s.(refreshCalls := r.after.refreshCalls, images := r.after.images)
    ensures r.after.refreshCalls == s.refreshCalls + PassTrace(s.keys, |s.keys|).visited
    ensures r.ok <==> Unbroken(s.keys, |s.keys|)
    ensures r.ok ==> r.after.refreshCalls == s.refreshCalls + NonEmptyBelow(s.keys, |s.keys|)
    ensures ImagesFollow(r.after.images, s.images, s.keys, PassTrace(s.keys, |s.keys|).visited, env)
  {
    RefreshFollowsTrace(s, |s.keys|, env);
    TraceOk(s.keys, |s.keys|);
    TraceComplete(s.keys, |s.keys|);
    RefreshImages(s, |s.keys|, env);
    RefreshUpTo(s, |s.keys|, env)
  }

  /**
   * Which keys the pass visits and whether it raises follow the trace of
   * the entries alone, whatever the outcome of fetching and rendering.
   */
  lemma {:induction false} RefreshFollowsTrace(s: State, n: nat, env: Env)
    requires n <= |s.keys|
    ensures RefreshUpTo(s, n, env).after.refreshCalls == s.refreshCalls + PassTrace(s.keys, n).visited
    ensures RefreshUpTo(s, n, env).ok == PassTrace(s.keys, n).ok
    decreases n
  {
    if n > 0 {
      RefreshFollowsTrace(s, n - 1, env);
      var p := RefreshUpTo(s, n - 1, env);
      var t := PassTrace(s.keys, n - 1);
      if p.ok && Truthy(s.keys[n - 1]) {
        assert p.after.refreshCalls + [n - 1] == s.refreshCalls + (t.visited + [n - 1]);
      }
    }
  }

  /** The key images after the pass are those the entries alone determine. */
  lemma {:induction false} RefreshDraws(s: State, n: nat, env: Env)
    requires n <= |s.keys|
    ensures RefreshUpTo(s, n, env).after.images == PassImages(s.keys, s.images, n, env)
    decreases n
  {
    if n > 0 {
      RefreshDraws(s, n - 1, env);
      RefreshFollowsTrace(s, n - 1, env);
      var p := RefreshUpTo(s, n - 1, env);
      if p.ok && Truthy(s.keys[n - 1]) {
        var q := UpdateKey(p.after, n - 1, env);
        assert RefreshUpTo(s, n, env) == q;
        assert p.after.keys == s.keys;
        assert q.after.images == Redraw(p.after.images, s.keys, n - 1, env);
      } else {
        assert RefreshUpTo(s, n, env) == p;
      }
    }
  }

  /** An entry the refresh can pass: empty, or carrying an icon. */
  predicate Healthy(entry: Json) {
    !Truthy(entry) || IconOf(entry).Some?
  }

  predicate Unbroken(keys: seq<Json>, n: nat)
    requires n <= |keys|
  {
    forall j :: 0 <= j < n ==> Healthy(keys[j])
  }

  /** Reference definition: the indices below n of the non-empty entries, ascending. */
  function NonEmptyBelow(keys: seq<Json>, n: nat): seq<nat>
    requires n <= |keys|
    decreases n
  {
    if n == 0 then []
    else NonEmptyBelow(keys, n - 1) + (if Truthy(keys[n - 1]) then [n - 1] else [])
  }

  lemma {:induction false} NonEmptyBelowMeaning(keys: seq<Json>, n: nat)
    requires n <= |keys|
    ensures var v := NonEmptyBelow(keys, n);
            && (forall a, b :: 0 <= a < b < |v| ==> v[a] < v[b])
            && (forall a :: 0 <= a < |v| ==> v[a] < n && Truthy(keys[v[a]]))
            && (forall i :: 0 <= i < n && Truthy(keys[i]) ==> i in v)
    decreases n
  {
    if n > 0 {
      NonEmptyBelowMeaning(keys, n - 1);
      var vp := NonEmptyBelow(keys, n - 1);
      var v := NonEmptyBelow(keys, n);
      assert v == vp + (if Truthy(keys[n - 1]) then [n - 1] else []);
      forall a | 0 <= a < |v| ensures v[a] < n && Truthy(keys[v[a]]) {
        if a < |vp| {
          assert v[a] == vp[a];
          assert Truthy(keys[vp[a]]);
        } else {
          assert Truthy(keys[n - 1]) && v[a] == n - 1;
        }
      }
    }
  }

  /** Over a list of empty entries there is nothing to refresh. */
  lemma {:induction false} NonEmptyBelowOfEmpties(keys: seq<Json>, n: nat)
    requires n <= |keys|
    requires forall i :: 0 <= i < |keys| ==> !Truthy(keys[i])
    ensures NonEmptyBelow(keys, n) == []
    decreases n
  {
    if n > 0 {
      NonEmptyBelowOfEmpties(keys, n - 1);
    }
  }

  /** The pass returns normally exactly when no non-empty entry below n lacks an icon. */
  lemma {:induction false} TraceOk(keys: seq<Json>, n: nat)
    requires n <= |keys|
    ensures PassTrace(keys, n).ok <==> Unbroken(keys, n)
    decreases n
  {
    if n > 0 {
      TraceOk(keys, n - 1);
    }
  }

  /** Strictly ascending indices, all below n. */
  predicate AscendingBelow(v: seq<nat>, n: nat) {
    && (forall a, b :: 0 <= a < b < |v| ==> v[a] < v[b])
    && (forall a :: 0 <= a < |v| ==> v[a] < n)
  }

  /** The pass enters `update_key` in strictly ascending index order, for indices below n. */
  lemma {:induction false} TraceAscending(keys: seq<Json>, n: nat)
    requires n <= |keys|
    ensures AscendingBelow(PassTrace(keys, n).visited, n)
    decreases n
  {
    if n > 0 {
      TraceAscending(keys, n - 1);
      var t := PassTrace(keys, n - 1);
      assert AscendingBelow(t.visited, n - 1);
      if t.ok && Truthy(keys[n - 1]) {
        var v := t.visited + [n - 1];
        assert PassTrace(keys, n).visited == v;
        forall a | 0 <= a < |v| ensures v[a] < n && (a < |t.visited| ==> v[a] == t.visited[a]) {
        }
      } else {
        assert PassTrace(keys, n) == t;
      }
    }
  }

  /**
   * The pass enters `update_key` for exactly the non-empty entries not
   * preceded by a non-empty entry without an icon.
   */
  lemma {:induction false} TraceMembers(keys: seq<Json>, n: nat)
    requires n <= |keys|
    ensures var v := PassTrace(keys, n).visited;
            forall i :: 0 <= i < n ==> (i in v <==> Truthy(keys[i]) && Unbroken(keys, i))
    decreases n
  {
    if n > 0 {
      TraceMembers(keys, n - 1);
      TraceAscending(keys, n - 1);
      TraceOk(keys, n - 1);
      var vp := PassTrace(keys, n - 1).visited;
      var v := PassTrace(keys, n).visited;
      assert n - 1 !in vp;
      forall i | 0 <= i < n ensures i in v <==> Truthy(keys[i]) && Unbroken(keys, i) {
        if i < n - 1 {
          assert i in v <==> i in vp;
        }
      }
    }
  }

  /** A pass that returns normally has entered `update_key` for every non-empty entry, ascending. */
  lemma {:induction false} TraceComplete(keys: seq<Json>, n: nat)
    requires n <= |keys|
    ensures PassTrace(keys, n).ok ==> PassTrace(keys, n).visited == NonEmptyBelow(keys, n)
    decreases n
  {
    if n > 0 {
      TraceComplete(keys, n - 1);
    }
  }

  /** Once an exception has stopped the pass, later entries are not visited. */
  lemma {:induction false} TraceStopped(keys: seq<Json>, m: nat, n: nat)
    requires m <= n <= |keys|
    requires !PassTrace(keys, m).ok
    ensures PassTrace(keys, n) == PassTrace(keys, m)
    decreases n
  {
    if n > m {
      TraceStopped(keys, m, n - 1);
    }
  }

  /**
   * A non-empty entry without an icon ends the bulk refresh: it is the last
   * key visited and the pass raises.
   */
  lemma BrokenEntryStopsPass(keys: seq<Json>, i: nat)
    requires i < |keys| && Unbroken(keys, i) && !Healthy(keys[i])
    ensures var t := PassTrace(keys, |keys|);
            && !t.ok
            && i in t.visited
            && forall j :: i < j < |keys| ==> j !in t.visited
  {
    TraceOk(keys, |keys|);
    TraceMembers(keys, |keys|);
  }

  /** A key the pass has not reached yet is not in its trace. */
  lemma NotYetVisited(keys: seq<Json>, n: nat, j: nat)
    requires n <= |keys| && n <= j
    ensures j !in PassTrace(keys, n).visited
  {
    TraceAscending(keys, n);
    assert AscendingBelow(PassTrace(keys, n).visited, n);
  }

  /**
   * After the pass, key i shows the image just drawn for it if it was
   * visited and drew; otherwise (empty, not reached, or its rendering
   * failed) it keeps the image it had.
   */
  lemma {:induction false} TraceImageAt(keys: seq<Json>, before: map<nat, IconSource>, n: nat, env: Env, i: nat)
    requires n <= |keys|
    ensures ImageAt(PassImages(keys, before, n, env), before, keys, PassTrace(keys, n).visited, env, i)
    decreases n
  {
    if n > 0 {
      TraceImageAt(keys, before, n - 1, env, i);
      var t := PassTrace(keys, n - 1);
      if t.ok && Truthy(keys[n - 1]) {
        NotYetVisited(keys, n - 1, n - 1);
        assert PassTrace(keys, n).visited == t.visited + [n - 1];
        if i != n - 1 {
          assert i in t.visited + [n - 1] <==> i in t.visited;
        }
      }
    }
  }

  /** The same for the state-level pass and every key. */
  lemma RefreshImages(s: State, n: nat, env: Env)
    requires n <= |s.keys|
    ensures ImagesFollow(RefreshUpTo(s, n, env).after.images, s.images, s.keys,
                         PassTrace(s.keys, n).visited, env)
  {
    RefreshDraws(s, n, env);
    forall i: nat
      ensures ImageAt(RefreshUpTo(s, n, env).after.images, s.images, s.keys, PassTrace(s.keys, n).visited, env, i)
    {
      TraceImageAt(s.keys, s.images, n, env, i);
    }
  }

  /** One more iteration of the loop of `update_keys`, from a pass that has not raised. */
  lemma RefreshNext(s: State, n: nat, env: Env)
    requires n < |s.keys| && RefreshUpTo(s, n, env).ok
    ensures RefreshUpTo(s, n + 1, env) ==
            if Truthy(s.keys[n]) then UpdateKey(RefreshUpTo(s, n, env).after, n, env)
            else RefreshUpTo(s, n, env)
  {
  }

  /** Once an exception has stopped the loop, later entries change nothing. */
  lemma {:induction false} RefreshStopped(s: State, m: nat, n: nat, env: Env)
    requires m <= n <= |s.keys|
    requires !RefreshUpTo(s, m, env).ok
    ensures RefreshUpTo(s, n, env) == RefreshUpTo(s, m, env)
    decreases n
  {
    if n > m {
      RefreshStopped(s, m, n - 1, env);
      var p := RefreshUpTo(s, n - 1, env);
      assert !p.ok;
      assert RefreshUpTo(s, n, env) == p;
    }
  }

  /** `update_brightness(b)`: device and configured brightness become b, and the document is saved. */
  function UpdateBrightness(s: State, b: int): (r: State)
    ensures r.devBrightness == b && ConfigOf(r) == Config(b, s.keys)
    ensures r.saved == Some(ConfigOf(r))
    ensures r == s.(devBrightness := r.devBrightness, brightness := r.brightness, saved := r.saved)
  {
    s.(devBrightness := b, brightness := b, saved := Some(Config(b, s.keys)))
  }

  /** `sleep()`: the device goes dark; the configuration is left alone. */
  function Sleep(s: State): (r: State)
    ensures r.devBrightness == 0
    ensures r == s.(devBrightness := r.devBrightness)
  {
    s.(devBrightness := 0)
  }

  /** `wake()`: re-apply (and re-save) the configured brightness. */
  function Wake(s: State): (r: State)
    ensures r.devBrightness == s.brightness && ConfigOf(r) == ConfigOf(s)
    ensures r.saved == Some(ConfigOf(s))
    ensures r == s.(devBrightness := r.devBrightness, saved := r.saved)
  {
    UpdateBrightness(s, s.brightness)
  }

  /**
   * `update_config(payload)` given the decoded payload: replace the key
   * list, save, then refresh; every exception is caught, and a payload that
   * does not decode changes nothing.
   */
  function UpdateConfig(s: State, parsed: Option<seq<Json>>, env: Env): (r: State)
    ensures parsed.None? ==> r == s
    ensures parsed.Some? ==>
              var ks := parsed.value;
              var visited := PassTrace(ks, |ks|).visited;
              && r == s.(keys := ks, saved := r.saved, refreshCalls := r.refreshCalls, images := r.images)
              && r.saved == Some(Config(s.brightness, ks))
              && r.refreshCalls == s.refreshCalls + visited
              && ImagesFollow(r.images, s.images, ks, visited, env)
  {
    match parsed
    case None => s
    case Some(ks) => UpdateKeys(s.(keys := ks, saved := Some(Config(s.brightness, ks))), env).after
  }

  /**
   * `update_config_key(payload, k)` given the decoded payload: replace entry
   * k, refresh it, then save; a payload that does not decode or an index
   * past the list (IndexError) changes nothing, and an entry without an
   * icon is stored but not saved, because `update_key` raises before the save.
   */
  function UpdateConfigKey(s: State, parsed: Option<Json>, k: nat, env: Env): (r: State)
    ensures !(parsed.Some? && k < |s.keys|) ==> r == s
    ensures parsed.Some? && k < |s.keys| ==>
              && r == s.(keys := r.keys, saved := r.saved, refreshCalls := r.refreshCalls, images := r.images)
              && r.keys == s.keys[k := parsed.value]
              && r.refreshCalls == s.refreshCalls + [k]
              && ImagesFollow(r.images, s.images, r.keys, [k], env)
  {
    if parsed.None? || k >= |s.keys| then s
    else
      var st := UpdateKey(s.(keys := s.keys[k := parsed.value]), k, env);
      RedrawFollows(s.images, s.keys[k := parsed.value], k, env);
      if st.ok then st.after.(saved := Some(ConfigOf(st.after))) else st.after
  }

  /**
   * `on_message`: route the topic, then run the handler. Only a brightness
   * payload that is not an integer raises out of it.
   */
  function OnMessage(s: State, topic: string, payload: string, keyCount: nat, env: Env): (r: Step)
    ensures Classify(topic, keyCount) == Ignore ==> r == Step(s, true)
    ensures !r.ok <==> Classify(topic, keyCount) == SetBrightness && ParseInt(payload).None?
    ensures !r.ok ==> r.after == s
    ensures r.after.subscriptions == s.subscriptions && r.after.published == s.published
  {
    match Classify(topic, keyCount)
    case SetBrightness =>
      (match ParseInt(payload)
       case None => Step(s, false)
       case Some(b) => Step(UpdateBrightness(s, b), true))
    case Sleep => Step(Sleep(s), true)
    case Wake => Step(Wake(s), true)
    case ReplaceAll => Step(UpdateConfig(s, env.decodeKeys(payload), env), true)
    case ReplaceKey(k) => Step(UpdateConfigKey(s, env.decodeKey(payload), k, env), true)
    case Ignore => Step(s, true)
  }

  /** `key_change_callback(deck, key, state)`: publish the four status topics. */
  function KeyChange(s: State, sn: string, key: nat, state: bool): (r: State)
    ensures r == s.(published := r.published)
    ensures |r.published| == |s.published| + 4 && r.published[..|s.published|] == s.published
    ensures forall j :: 0 <= j < 4 ==> r.published[|s.published| + j] == KeyEventTopics(sn, key, state)[j]
  {
    s.(published := s.published + KeyEventTopics(sn, key, state))
  }

  /**
   * `init()`: full brightness, the device reset (no images), the
   * subscriptions, then a bulk refresh.
   */
  function Init(s: State, sn: string, keyCount: nat, env: Env): (r: Step)
    ensures r.after == s.(devBrightness := 100, subscriptions := r.after.subscriptions,
                          refreshCalls := r.after.refreshCalls, images := r.after.images)
    ensures r.after.subscriptions == s.subscriptions + Subscriptions(sn, keyCount)
    ensures r.ok <==> Unbroken(s.keys, |s.keys|)
    ensures r.after.refreshCalls == s.refreshCalls + PassTrace(s.keys, |s.keys|).visited
    ensures ImagesFollow(r.after.images, map[], s.keys, PassTrace(s.keys, |s.keys|).visited, env)
  {
    UpdateKeys(s.(devBrightness := 100, images := map[],
                  subscriptions := s.subscriptions + Subscriptions(sn, keyCount)), env)
  }

  // ---------------------------------------------------------------------
  // What the handlers promise

  /**
   * A `/brightness` message: an integer payload b sets the device and the
   * configured brightness to b, unclamped, saves the document and leaves the
   * keys alone; any other payload raises and changes nothing.
   */
  lemma BrightnessMessage(s: State, topic: string, payload: string, keyCount: nat, env: Env)
    requires EndsWith(topic, "/brightness")
    ensures var r := OnMessage(s, topic, payload, keyCount, env);
            && (r.ok <==> ParseInt(payload).Some?)
            && (!r.ok ==> r.after == s)
            && (r.ok ==> var b := ParseInt(payload).value;
                         && r.after.devBrightness == b
                         && r.after.brightness == b
                         && r.after.saved == Some(Config(b, s.keys))
                         && r.after == s.(devBrightness := b, brightness := b, saved := r.after.saved))
  {
  }

  /**
   * Sleeping leaves the configuration and the saved document alone, and a
   * wake afterwards restores the configured brightness, not 0.
   */
  lemma SleepThenWake(s: State)
    ensures Sleep(s).devBrightness == 0
    ensures ConfigOf(Sleep(s)) == ConfigOf(s) && Sleep(s).saved == s.saved
    ensures Wake(Sleep(s)).devBrightness == s.brightness
    ensures ConfigOf(Wake(Sleep(s))) == ConfigOf(s)
    ensures Wake(Sleep(s)).saved == Some(ConfigOf(s))
  {
  }

  /** The same through the bus: `<prefix>/sleep` then `<prefix>/wake`, whatever the payloads. */
  lemma SleepWakeMessages(s: State, prefix: string, p1: string, p2: string, keyCount: nat, env: Env)
    ensures var a := OnMessage(s, prefix + "/sleep", p1, keyCount, env);
            var b := OnMessage(a.after, prefix + "/wake", p2, keyCount, env);
            && a.ok && b.ok
            && a.after.devBrightness == 0
            && b.after.devBrightness == s.brightness
            && ConfigOf(b.after) == ConfigOf(s)
  {
    ControlTopicsRoute(prefix, keyCount);
  }

  /**
   * A `/config` message: a decoded list becomes the key list as it is, in
   * order, brightness untouched, and is saved before the refresh; the bulk
   * refresh then runs over the new list. A payload that does not decode
   * changes nothing. No exception escapes.
   */
  lemma ConfigMessage(s: State, topic: string, payload: string, keyCount: nat, env: Env)
    requires Classify(topic, keyCount) == ReplaceAll
    ensures var r := OnMessage(s, topic, payload, keyCount, env);
            && r.ok
            && (env.decodeKeys(payload).None? ==> r.after == s)
            && (env.decodeKeys(payload).Some? ==>
                  var ks := env.decodeKeys(payload).value;
                  && r.after.keys == ks
                  && r.after.brightness == s.brightness
                  && r.after.devBrightness == s.devBrightness
                  && r.after.saved == Some(Config(s.brightness, ks))
                  && r.after.refreshCalls == s.refreshCalls + PassTrace(ks, |ks|).visited
                  && ImagesFollow(r.after.images, s.images, ks, PassTrace(ks, |ks|).visited, env))
  {
  }

  /**
   * `update_config_key` changes entry k and no other, never the brightness;
   * it saves exactly when the new entry has an icon, redraws key k alone,
   * and changes nothing when the payload does not decode or k is past the
   * end of the list.
   */
  lemma ConfigKeyFrame(s: State, parsed: Option<Json>, k: nat, env: Env)
    ensures var r := UpdateConfigKey(s, parsed, k, env);
            var applies := parsed.Some? && k < |s.keys|;
            && |r.keys| == |s.keys|
            && (forall j :: 0 <= j < |s.keys| && j != k ==> r.keys[j] == s.keys[j])
            && (applies ==> r.keys[k] == parsed.value)
            && (!applies ==> r == s)
            && r.brightness == s.brightness && r.devBrightness == s.devBrightness
            && r.saved == (if applies && IconOf(parsed.value).Some?
                           then Some(Config(s.brightness, s.keys[k := parsed.value]))
                           else s.saved)
            && (applies ==> r.refreshCalls == s.refreshCalls + [k])
            && (forall i: nat :: i != k ==> MapGet(r.images, i) == MapGet(s.images, i))
            && (applies ==> MapGet(r.images, k) ==
                              if Drawn(parsed.value, env).Some? then Drawn(parsed.value, env)
                              else MapGet(s.images, k))
  {
  }

  /**
   * With the document in step with memory, storing an icon-less entry that
   * differs from the old one leaves `data.json` behind memory.
   */
  lemma SavedLagsMemory(s: State, e: Json, k: nat, env: Env)
    requires s.saved == Some(ConfigOf(s))
    requires k < |s.keys| && IconOf(e).None? && s.keys[k] != e
    ensures var r := UpdateConfigKey(s, Some(e), k, env);
            r.saved == s.saved && r.saved.value.keys != r.keys
  {
    var r := UpdateConfigKey(s, Some(e), k, env);
    assert r.keys[k] == e;
  }

  /** A whole-list replace followed by a single-key update yields the list with that one entry changed. */
  lemma ReplaceAllThenKey(s: State, ks: seq<Json>, e: Json, k: nat, env: Env)
    ensures UpdateConfigKey(UpdateConfig(s, Some(ks), env), Some(e), k, env).keys ==
            if k < |ks| then ks[k := e] else ks
  {
  }

  /** Malformed JSON on either config topic leaves memory and the saved document exactly as they were. */
  lemma MalformedConfigIgnored(s: State, topic: string, payload: string, keyCount: nat, env: Env)
    ensures Classify(topic, keyCount) == ReplaceAll && env.decodeKeys(payload).None? ==>
              OnMessage(s, topic, payload, keyCount, env) == Step(s, true)
    ensures Classify(topic, keyCount).ReplaceKey? && env.decodeKey(payload).None? ==>
              OnMessage(s, topic, payload, keyCount, env) == Step(s, true)
  {
  }

  /** With the default document, start-up draws nothing, visits no key and cannot raise. */
  lemma DefaultStartup(sn: string, keyCount: nat, deviceBrightness: int, env: Env)
    ensures var r := Init(Initial(None, keyCount, deviceBrightness), sn, keyCount, env);
            && r.ok
            && r.after.images == map[]
            && r.after.refreshCalls == []
            && r.after.devBrightness == 100
            && r.after.brightness == DefaultBrightness
            && r.after.subscriptions == Subscriptions(sn, keyCount)
  {
    var s0 := Initial(None, keyCount, deviceBrightness);
    var r := Init(s0, sn, keyCount, env);
    DefaultKeysAreEmpty(keyCount);
    TraceComplete(s0.keys, |s0.keys|);
    NonEmptyBelowOfEmpties(s0.keys, |s0.keys|);
    var visited := PassTrace(s0.keys, |s0.keys|).visited;
    assert visited == [];
    forall i: nat ensures i !in r.after.images {
      assert ImageAt(r.after.images, map[], s0.keys, visited, env, i);
    }
    assert r.after.images.Keys == {};
  }
}
