/**
 * The coordinator object of one device session. Its fields are the
 * in-memory configuration (`brightness` and `keys`), the device's
 * brightness and key images as last set, the saved document, and the
 * transport's subscription and publication logs. Every method is proved to
 * take the object from `State()` to what the matching function of module
 * Session prescribes.
 */
module Bridge {
  import opened Wrappers
  import opened Text
  import opened KeySpec
  import Topics
  import Session

  class StreamDeckMQTT {
    const serial: string          // deck.get_serial_number()
    const keyCount: nat           // deck.key_count()
    var brightness: int
    var keys: seq<Json>
    var devBrightness: int
    var images: map<nat, IconSource>
    var saved: Option<Config>
    var refreshCalls: seq<nat>
    var subscriptions: seq<string>
    var published: seq<string>

    function State(): Session.State
      reads this
    {
      Session.State(brightness, keys, devBrightness, images, saved, refreshCalls, subscriptions, published)
    }

    /**
     * The configuration part of the constructor: the loaded `data.json`, or
     * the default document when it will not load. The device is as it was.
     */
    constructor (serial: string, keyCount: nat, loaded: Option<Config>, deviceBrightness: int)
      ensures this.serial == serial && this.keyCount == keyCount
      ensures State() == Session.Initial(loaded, keyCount, deviceBrightness)
    {
      this.serial := serial;
      this.keyCount := keyCount;
      var config: Config;
      if loaded.Some? {
        config := loaded.value;
      } else {
        config := DefaultConfig(keyCount);
        assert config.keys == DefaultKeys(keyCount);
      }
      brightness := config.brightness;
      keys := config.keys;
      devBrightness := deviceBrightness;
      images := map[];
      saved := loaded;
      refreshCalls := [];
      subscriptions := [];
      published := [];
    }

    /**
     * `init()`: reset the device (clearing its images), set it to full
     * brightness, subscribe to the control topics and to both topics of
     * every key, then refresh all keys. Returns false when the refresh raised.
     */
    method Init(env: Session.Env) returns (ok: bool)
      modifies this
      ensures State() == Session.Init(old(State()), serial, keyCount, env).after
      ensures ok == Session.Init(old(State()), serial, keyCount, env).ok
    {
      images := map[];
      devBrightness := 100;
      subscriptions := subscriptions + Topics.FixedTopics(serial);
      var idx := 0;
      while idx < keyCount
        invariant 0 <= idx <= keyCount
        invariant State() == old(State()).(devBrightness := 100, images := map[],
                    subscriptions := old(subscriptions) + Topics.FixedTopics(serial) +
                                     Topics.KeyConfigTopics(serial, idx))
      {
        subscriptions := subscriptions + [Topics.Root + "config/" + NatToString(idx)];
        subscriptions := subscriptions + [Topics.Root + serial + "/config/" + NatToString(idx)];
        idx := idx + 1;
      }
      assert subscriptions == old(subscriptions) + Topics.Subscriptions(serial, keyCount);
      images := map[];
      ghost var s1 := State();
      assert Session.Init(old(State()), serial, keyCount, env) == Session.UpdateKeys(s1, env);
      ok := UpdateKeys(env);
    }

    /**
     * `update_key(key)`: record the call, look the icon up (raising when
     * there is none), and push the image when it renders.
     */
    method UpdateKey(key: nat, env: Session.Env) returns (ok: bool)
      requires key < |keys|
      modifies this
      ensures State() == Session.UpdateKey(old(State()), key, env).after
      ensures ok == Session.UpdateKey(old(State()), key, env).ok
    {
      refreshCalls := refreshCalls + [key];
      var entry := keys[key];
      var icon := IconOf(entry);
      if icon.None? {
        return false;
      }
      ok := true;
      var source := SelectIcon(icon.value, ColorOf(entry));
      if source.Some? && env.renders(source.value) {
        images := images[key := source.value];
      }
    }

    /** `update_keys()`: refresh the non-empty entries in index order; stops at the first exception. */
    method UpdateKeys(env: Session.Env) returns (ok: bool)
      modifies this
      ensures State() == Session.UpdateKeys(old(State()), env).after
      ensures ok == Session.UpdateKeys(old(State()), env).ok
    {
      ghost var s0 := State();
      var entries := keys;
      var idx := 0;
      while idx < |entries|
        invariant 0 <= idx <= |entries| && entries == s0.keys
        invariant Session.RefreshUpTo(s0, idx, env) == Session.Step(State(), true)
      {
        Session.RefreshNext(s0, idx, env);
        if Truthy(entries[idx]) {
          var keyOk := UpdateKey(idx, env);
          if !keyOk {
            Session.RefreshStopped(s0, idx + 1, |entries|, env);
            return false;
          }
        }
        idx := idx + 1;
      }
      ok := true;
    }

    /** `update_brightness(b)`: no clamping. */
    method UpdateBrightness(b: int)
      modifies this
      ensures State() == Session.UpdateBrightness(old(State()), b)
    {
      devBrightness := b;
      brightness := b;
      saved := Some(Config(brightness, keys));
    }

    method Sleep()
      modifies this
      ensures State() == Session.Sleep(old(State()))
    {
      devBrightness := 0;
    }

    method Wake()
      modifies this
      ensures State() == Session.Wake(old(State()))
    {
      UpdateBrightness(brightness);
    }

    /** `update_config(payload)`: every exception is caught and printed. */
    method UpdateConfig(payload: string, env: Session.Env)
      modifies this
      ensures State() == Session.UpdateConfig(old(State()), env.decodeKeys(payload), env)
    {
      var parsed := env.decodeKeys(payload);
      if parsed.None? {
        return;
      }
      keys := parsed.value;
      saved := Some(Config(brightness, keys));
      var refreshOk := UpdateKeys(env);
    }

    /** `update_config_key(payload, key)`: every exception is caught and printed. */
    method UpdateConfigKey(payload: string, key: nat, env: Session.Env)
      modifies this
      ensures State() == Session.UpdateConfigKey(old(State()), env.decodeKey(payload), key, env)
    {
      var parsed := env.decodeKey(payload);
      if parsed.None? || key >= |keys| {
        return;
      }
      keys := keys[key := parsed.value];
      var drawnOk := UpdateKey(key, env);
      if drawnOk {
        saved := Some(Config(brightness, keys));
      }
    }

    /** `on_message`: returns false when an exception escapes (a non-integer brightness payload). */
    method OnMessage(topic: string, payload: string, env: Session.Env) returns (ok: bool)
      modifies this
      ensures State() == Session.OnMessage(old(State()), topic, payload, keyCount, env).after
      ensures ok == Session.OnMessage(old(State()), topic, payload, keyCount, env).ok
    {
      var route := Topics.Classify(topic, keyCount);
      ok := true;
      if route.SetBrightness? {
        var b := ParseInt(payload);
        if b.None? {
          ok := false;
        } else {
          UpdateBrightness(b.value);
        }
      } else if route.Sleep? {
        Sleep();
      } else if route.Wake? {
        Wake();
      } else if route.ReplaceAll? {
        UpdateConfig(payload, env);
      } else if route.ReplaceKey? {
        UpdateConfigKey(payload, route.index, env);
      }
    }

    /** `key_change_callback(deck, key, state)`: four publications, in this order. */
    method KeyChangeCallback(key: nat, state: bool)
      modifies this
      ensures State() == Session.KeyChange(old(State()), serial, key, state)
    {
      var k := NatToString(key);
      var direction := if state then "down" else "up";
      published := published + [Topics.Root + k];
      published := published + [Topics.Root + k + "/" + direction];
      published := published + [Topics.Root + serial + "/" + k];
      published := published + [Topics.Root + serial + "/" + k + "/" + direction];
    }
  }

  /**
   * A session driven through the bus: sleep, then wake, on the device's own
   * topics. The device ends at the configured brightness it had before.
   */
  method SleepWakeSession(bridge: StreamDeckMQTT, env: Session.Env)
    modifies bridge
    ensures bridge.devBrightness == old(bridge.brightness)
    ensures bridge.brightness == old(bridge.brightness) && bridge.keys == old(bridge.keys)
  {
    Session.SleepWakeMessages(bridge.State(), Topics.Root + bridge.serial, "", "", bridge.keyCount, env);
    var slept := bridge.OnMessage(Topics.Root + bridge.serial + "/sleep", "", env);
    var woke := bridge.OnMessage(Topics.Root + bridge.serial + "/wake", "", env);
  }
}
