/**
 * The bridge's topic namespace: how an inbound topic is routed by
 * `on_message`, the topics `init` subscribes to, and the topics a key
 * event publishes.
 */
module Topics {
  import opened Wrappers
  import opened Text

  const Root: string := "streamdeck/"

  /** The handler an inbound topic is dispatched to. */
  datatype Route =
    | SetBrightness
    | Sleep
    | Wake
    | ReplaceAll
    | ReplaceKey(index: nat)
    | Ignore

  /** The suffix `/config/<x>` tested for each key index `x`. */
  function ConfigSuffix(x: nat): string {
    "/config/" + NatToString(x)
  }

  /**
   * `any(topic.endswith("/config/{}".format(x)) for x in range(from, count))`,
   * scanning the indices upward.
   */
  function AnyConfigIndex(topic: string, from: nat, count: nat): (b: bool)
    ensures b <==> exists x :: from <= x < count && EndsWith(topic, ConfigSuffix(x))
    decreases count - from
  {
    if from >= count then false
    else EndsWith(topic, ConfigSuffix(from)) || AnyConfigIndex(topic, from + 1, count)
  }

  lemma NoSlashInDigits(s: string)
    requires AllDigits(s)
    ensures '/' !in s
  {
  }

  /** A topic whose last character differs from a suffix's last character does not end with it. */
  lemma LastCharDiffers(t: string, suffix: string)
    requires |t| > 0 && |suffix| > 0 && t[|t| - 1] != suffix[|suffix| - 1]
    ensures !EndsWith(t, suffix)
  {
  }

  /** A topic ending in `/config/<x>` has `<x>` as its last `/`-segment. */
  lemma ConfigSuffixSegment(topic: string, x: nat)
    requires EndsWith(topic, ConfigSuffix(x))
    ensures LastSegment(topic, '/') == NatToString(x)
  {
    var n := NatToString(x);
    NoSlashInDigits(n);
    var p := topic[..|topic| - |n| - 1];
    assert topic == p + ['/'] + n by {
      assert topic[|topic| - |n| - 1] == '/';
      assert topic[|topic| - |n|..] == n;
      assert topic == topic[..|topic| - |n| - 1] + [topic[|topic| - |n| - 1]] + topic[|topic| - |n|..];
    }
    LastSegmentAfter(p, '/', n);
  }

  /** At most one key index matches a topic. */
  lemma ConfigSuffixUnique(topic: string, x: nat, y: nat)
    requires EndsWith(topic, ConfigSuffix(x)) && EndsWith(topic, ConfigSuffix(y))
    ensures x == y
  {
    ConfigSuffixSegment(topic, x);
    ConfigSuffixSegment(topic, y);
    NatToStringInjective(x, y);
  }

  /** When some index matches, `int(topic.split('/').pop())` succeeds and yields it. */
  lemma KeyIndexOfTopic(topic: string, keyCount: nat)
    requires AnyConfigIndex(topic, 0, keyCount)
    ensures var r := ParseInt(LastSegment(topic, '/'));
            r.Some? && 0 <= r.value < keyCount && EndsWith(topic, ConfigSuffix(r.value))
  {
    var x :| 0 <= x < keyCount && EndsWith(topic, ConfigSuffix(x));
    ConfigSuffixSegment(topic, x);
    ParseIntOfNatToString(x);
  }

  /** The if/elif chain of `on_message`. */
  function Classify(topic: string, keyCount: nat): (r: Route)
    ensures r.ReplaceKey? ==> r.index < keyCount && EndsWith(topic, ConfigSuffix(r.index))
  {
    if EndsWith(topic, "/brightness") then SetBrightness
    else if EndsWith(topic, "/sleep") then Sleep
    else if EndsWith(topic, "/wake") then Wake
    else if EndsWith(topic, "/config") then ReplaceAll
    else if AnyConfigIndex(topic, 0, keyCount) then
      KeyIndexOfTopic(topic, keyCount);
      ReplaceKey(ParseInt(LastSegment(topic, '/')).value as nat)
    else Ignore
  }

  /**
   * Dispatch is first-match in a fixed order, and a key topic goes to the
   * one index its suffix names.
   */
  lemma ClassifyOrder(topic: string, keyCount: nat)
    ensures var b, s, w, c := EndsWith(topic, "/brightness"), EndsWith(topic, "/sleep"),
                              EndsWith(topic, "/wake"), EndsWith(topic, "/config");
            && (Classify(topic, keyCount) == SetBrightness <==> b)
            && (Classify(topic, keyCount) == Sleep <==> !b && s)
            && (Classify(topic, keyCount) == Wake <==> !b && !s && w)
            && (Classify(topic, keyCount) == ReplaceAll <==> !b && !s && !w && c)
            && (forall k: nat :: Classify(topic, keyCount) == ReplaceKey(k) <==>
                  !b && !s && !w && !c && k < keyCount && EndsWith(topic, ConfigSuffix(k)))
            && (Classify(topic, keyCount) == Ignore <==>
                  !b && !s && !w && !c &&
                  forall x :: 0 <= x < keyCount ==> !EndsWith(topic, ConfigSuffix(x)))
  {
    forall k: nat | k < keyCount && EndsWith(topic, ConfigSuffix(k))
      ensures AnyConfigIndex(topic, 0, keyCount)
      ensures Classify(topic, keyCount).ReplaceKey? ==> Classify(topic, keyCount).index == k
    {
      var r := Classify(topic, keyCount);
      if r.ReplaceKey? {
        ConfigSuffixUnique(topic, r.index, k);
      }
    }
  }

  lemma ConfigSuffixEndsInDigit(topic: string, x: nat)
    requires EndsWith(topic, ConfigSuffix(x))
    ensures IsDigit(topic[|topic| - 1])
  {
    var n := NatToString(x);
    assert topic[|topic| - 1] == ConfigSuffix(x)[|ConfigSuffix(x)| - 1] == n[|n| - 1];
  }

  /** `<prefix>/config/<i>` is routed to key `i`, whatever the prefix. */
  lemma KeyConfigTopicRoute(prefix: string, i: nat, keyCount: nat)
    requires i < keyCount
    ensures Classify(prefix + ConfigSuffix(i), keyCount) == ReplaceKey(i)
  {
    var t := prefix + ConfigSuffix(i);
    assert EndsWith(t, ConfigSuffix(i)) by {
      assert t[|t| - |ConfigSuffix(i)|..] == ConfigSuffix(i);
    }
    ConfigSuffixEndsInDigit(t, i);
    ClassifyOrder(t, keyCount);
  }

  lemma EndsWithAppended(prefix: string, suffix: string)
    ensures EndsWith(prefix + suffix, suffix)
  {
    assert (prefix + suffix)[|prefix|..] == suffix;
  }

  /** `<prefix>/brightness`, `/sleep`, `/wake` and `/config` reach their handlers, whatever the prefix. */
  lemma ControlTopicsRoute(prefix: string, keyCount: nat)
    ensures Classify(prefix + "/brightness", keyCount) == SetBrightness
    ensures Classify(prefix + "/sleep", keyCount) == Sleep
    ensures Classify(prefix + "/wake", keyCount) == Wake
    ensures Classify(prefix + "/config", keyCount) == ReplaceAll
  {
    EndsWithAppended(prefix, "/brightness");
    EndsWithAppended(prefix, "/sleep");
    EndsWithAppended(prefix, "/wake");
    EndsWithAppended(prefix, "/config");
    LastCharDiffers(prefix + "/sleep", "/brightness");
    LastCharDiffers(prefix + "/wake", "/brightness");
    LastCharDiffers(prefix + "/wake", "/sleep");
    LastCharDiffers(prefix + "/config", "/brightness");
    LastCharDiffers(prefix + "/config", "/sleep");
    LastCharDiffers(prefix + "/config", "/wake");
  }

  /** The fixed part of the subscription list of `init`. */
  function FixedTopics(sn: string): seq<string> {
    [ Root, Root + sn,
      Root + "brightness", Root + sn + "/brightness",
      Root + "sleep", Root + sn + "/sleep",
      Root + "wake", Root + sn + "/wake",
      Root + "config", Root + sn + "/config" ]
  }

  /** The per-key subscriptions, global then device-scoped, for keys `0 .. n-1`. */
  function KeyConfigTopics(sn: string, n: nat): seq<string>
    decreases n
  {
    if n == 0 then []
    else KeyConfigTopics(sn, n - 1) + [Root + "config/" + NatToString(n - 1),
                                       Root + sn + "/config/" + NatToString(n - 1)]
  }

  /** Everything `init` subscribes to, in order. */
  function Subscriptions(sn: string, keyCount: nat): seq<string> {
    FixedTopics(sn) + KeyConfigTopics(sn, keyCount)
  }

  lemma {:induction false} KeyConfigTopicsAt(sn: string, n: nat, i: nat)
    requires i < n
    ensures |KeyConfigTopics(sn, n)| == 2 * n
    ensures KeyConfigTopics(sn, n)[2 * i] == Root + "config/" + NatToString(i)
    ensures KeyConfigTopics(sn, n)[2 * i + 1] == Root + sn + "/config/" + NatToString(i)
    decreases n
  {
    if i < n - 1 {
      KeyConfigTopicsAt(sn, n - 1, i);
    } else if n > 1 {
      KeyConfigTopicsAt(sn, n - 1, 0);
    }
  }

  lemma SubscriptionsLength(sn: string, keyCount: nat)
    ensures |Subscriptions(sn, keyCount)| == 10 + 2 * keyCount
  {
    if keyCount > 0 {
      KeyConfigTopicsAt(sn, keyCount, 0);
    }
  }

  /** The eight control subscriptions (global and device-scoped) reach their handlers. */
  lemma ControlSubscriptionsRoute(sn: string, keyCount: nat)
    ensures var fixed := FixedTopics(sn);
            && Subscriptions(sn, keyCount)[..10] == fixed
            && Classify(fixed[2], keyCount) == SetBrightness && Classify(fixed[3], keyCount) == SetBrightness
            && Classify(fixed[4], keyCount) == Sleep && Classify(fixed[5], keyCount) == Sleep
            && Classify(fixed[6], keyCount) == Wake && Classify(fixed[7], keyCount) == Wake
            && Classify(fixed[8], keyCount) == ReplaceAll && Classify(fixed[9], keyCount) == ReplaceAll
  {
    var fixed := FixedTopics(sn);
    assert fixed[2] == "streamdeck" + "/brightness" && fixed[3] == Root + sn + "/brightness";
    assert fixed[4] == "streamdeck" + "/sleep" && fixed[5] == Root + sn + "/sleep";
    assert fixed[6] == "streamdeck" + "/wake" && fixed[7] == Root + sn + "/wake";
    assert fixed[8] == "streamdeck" + "/config" && fixed[9] == Root + sn + "/config";
    ControlTopicsRoute("streamdeck", keyCount);
    ControlTopicsRoute(Root + sn, keyCount);
  }

  /** The two subscriptions of key `i` (global and device-scoped) reach the update of key `i`. */
  lemma KeySubscriptionsRoute(sn: string, keyCount: nat, i: nat)
    requires i < keyCount
    ensures var subs := Subscriptions(sn, keyCount);
            && |subs| == 10 + 2 * keyCount
            && Classify(subs[10 + 2 * i], keyCount) == ReplaceKey(i)
            && Classify(subs[11 + 2 * i], keyCount) == ReplaceKey(i)
  {
    var subs := Subscriptions(sn, keyCount);
    KeyConfigTopicsAt(sn, keyCount, i);
    assert subs[10 + 2 * i] == "streamdeck" + ConfigSuffix(i);
    assert subs[11 + 2 * i] == Root + sn + ConfigSuffix(i);
    KeyConfigTopicRoute("streamdeck", i, keyCount);
    KeyConfigTopicRoute(Root + sn, i, keyCount);
  }

  function Direction(state: bool): string {
    if state then "down" else "up"
  }

  /** The four topics `key_change_callback` publishes for one key event, in order. */
  function KeyEventTopics(sn: string, key: nat, state: bool): seq<string> {
    var k := NatToString(key);
    [ Root + k,
      Root + k + "/" + Direction(state),
      Root + sn + "/" + k,
      Root + sn + "/" + k + "/" + Direction(state) ]
  }

  /** The four topics of a key event are pairwise distinct. */
  lemma KeyEventTopicsDistinct(sn: string, key: nat, state: bool)
    ensures var ts := KeyEventTopics(sn, key, state);
            |ts| == 4 && forall i, j :: 0 <= i < j < 4 ==> ts[i] != ts[j]
  {
    var ts := KeyEventTopics(sn, key, state);
    var k := NatToString(key);
    var d := Direction(state);
    assert |ts[0]| == 11 + |k|;
    assert |ts[1]| == 12 + |k| + |d|;
    assert |ts[2]| == 12 + |sn| + |k|;
    assert |ts[3]| == 13 + |sn| + |k| + |d|;
    assert ts[2][|ts[2]| - 1] == k[|k| - 1];
    assert ts[1][|ts[1]| - 1] == d[|d| - 1];
  }

  /**
   * The bare-index topics are the same on press and on release; the other
   * two end in `/down` exactly when the key is pressed, else in `/up`.
   */
  lemma KeyEventDirection(sn: string, key: nat, state: bool)
    ensures var ts := KeyEventTopics(sn, key, state);
            && ts[0] == KeyEventTopics(sn, key, !state)[0]
            && ts[2] == KeyEventTopics(sn, key, !state)[2]
            && (EndsWith(ts[1], "/down") <==> state)
            && (EndsWith(ts[3], "/down") <==> state)
            && (EndsWith(ts[1], "/up") <==> !state)
            && (EndsWith(ts[3], "/up") <==> !state)
  {
    var ts := KeyEventTopics(sn, key, state);
    var d := Direction(state);
    assert ts[1][|ts[1]| - |d| - 1..] == "/" + d;
    assert ts[3][|ts[3]| - |d| - 1..] == "/" + d;
    if state {
      LastCharDiffers(ts[1], "/up");
      LastCharDiffers(ts[3], "/up");
    } else {
      LastCharDiffers(ts[1], "/down");
      LastCharDiffers(ts[3], "/down");
    }
  }

  /** The key index can be read back from the last segment of the bare topic. */
  lemma KeyEventIndex(sn: string, key: nat, state: bool)
    ensures ParseInt(LastSegment(KeyEventTopics(sn, key, state)[0], '/')) == Some(key)
    ensures ParseInt(LastSegment(KeyEventTopics(sn, key, state)[2], '/')) == Some(key)
  {
    var k := NatToString(key);
    var ts := KeyEventTopics(sn, key, state);
    NoSlashInDigits(k);
    assert ts[0] == "streamdeck" + ['/'] + k;
    assert ts[2] == Root + sn + ['/'] + k;
    LastSegmentAfter("streamdeck", '/', k);
    LastSegmentAfter(Root + sn, '/', k);
    ParseIntOfNatToString(key);
  }
}
