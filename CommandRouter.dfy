/**
 * Routing of an inbound command message to one action.
 *
 * A message body is a JSON object, here already decoded into a map from
 * keys to values. The `camera` key wins over the `index` key; a message
 * with neither is an unknown command and does nothing.
 */
module CommandRouter {
  import Text

  /** A decoded JSON value: the router only ever compares values with strings. */
  datatype Json = JString(s: string) | JOther

  /** A decoded JSON object. */
  type Payload = map<string, Json>

  const CameraKey := "camera"
  const IndexKey := "index"

  datatype Action =
    | Enable                      // {"camera": "enable"}
    | Disable                     // {"camera": "disable"}
    | UseOnce                     // {"camera": "use"}: one capture, always analysed
    | UnknownCamera(value: Json)  // any other `camera` value: logged, nothing else
    | Index(name: string)         // {"index": name}: enrol a face under the capitalized name
    | BadIndex                    // an `index` value that is not a string: `.capitalize()` raises
    | Unknown                     // neither key: logged, nothing else

  /** Whether the action changes the camera state (only enable and disable do). */
  predicate ChangesState(a: Action)
  {
    a.Enable? || a.Disable?
  }

  /** Whether the action takes a picture (a one-shot use or a face enrolment). */
  predicate Captures(a: Action)
  {
    a.UseOnce? || a.Index?
  }

  /**
   * The handler's dispatch. Each action is chosen exactly when its guard
   * holds: the `camera` key decides whenever it is present; otherwise the
   * `index` key decides; otherwise the command is unknown.
   */
  function Route(p: Payload): (a: Action)
    ensures a.Enable? <==> CameraKey in p && p[CameraKey] == JString("enable")
    ensures a.Disable? <==> CameraKey in p && p[CameraKey] == JString("disable")
    ensures a.UseOnce? <==> CameraKey in p && p[CameraKey] == JString("use")
    ensures a.UnknownCamera? <==>
      CameraKey in p && p[CameraKey] !in [JString("enable"), JString("disable"), JString("use")]
    ensures a.UnknownCamera? ==> a.value == p[CameraKey]
    ensures a.Index? <==> CameraKey !in p && IndexKey in p && p[IndexKey].JString?
    ensures a.Index? ==> a.name == Text.Capitalize(p[IndexKey].s)
    ensures a.BadIndex? <==> CameraKey !in p && IndexKey in p && !p[IndexKey].JString?
    ensures a.Unknown? <==> CameraKey !in p && IndexKey !in p
  {
    if CameraKey in p then
      var v := p[CameraKey];
      if v == JString("enable") then Enable
      else if v == JString("disable") then Disable
      else if v == JString("use") then UseOnce
      else UnknownCamera(v)
    else if IndexKey in p then
      match p[IndexKey]
      case JString(name) => Index(Text.Capitalize(name))
      case JOther => BadIndex
    else
      Unknown
  }

  /** When `camera` is present, whatever `index` holds (or whether it is there) does not matter. */
  lemma CameraKeyTakesPrecedence(p: Payload, v: Json)
    requires CameraKey in p
    ensures Route(p[IndexKey := v]) == Route(p)
    ensures Route(p - {IndexKey}) == Route(p)
    ensures !Route(p).Index? && !Route(p).BadIndex?
  {
    assert p[IndexKey := v][CameraKey] == p[CameraKey];
    assert (p - {IndexKey})[CameraKey] == p[CameraKey];
  }

  /** Only the `camera` and `index` keys are looked at: any other key may be added or removed. */
  lemma OtherKeysIgnored(p: Payload, k: string, v: Json)
    requires k != CameraKey && k != IndexKey
    ensures Route(p[k := v]) == Route(p)
    ensures Route(p - {k}) == Route(p)
  {
    var q, q' := p[k := v], p - {k};
    assert CameraKey in q <==> CameraKey in p;
    assert CameraKey in q' <==> CameraKey in p;
    assert IndexKey in q <==> IndexKey in p;
    assert IndexKey in q' <==> IndexKey in p;
    if CameraKey in p {
      assert q[CameraKey] == p[CameraKey] == q'[CameraKey];
    } else if IndexKey in p {
      assert q[IndexKey] == p[IndexKey] == q'[IndexKey];
    }
  }

  /**
   * Unrecognised commands are harmless: an unknown `camera` value and a
   * message with neither key change no state and take no picture.
   */
  lemma UnrecognisedCommandsDoNothing(p: Payload)
    requires Route(p).UnknownCamera? || Route(p).Unknown?
    ensures !ChangesState(Route(p)) && !Captures(Route(p))
  {
  }

  /** An enrolment name is always in capitalized form, and names that differ only in case enrol under one name. */
  lemma IndexNameNormalised(p: Payload, q: Payload)
    requires Route(p).Index? && Route(q).Index?
    ensures Text.IsCapitalized(Route(p).name)
    ensures Text.Capitalize(Route(p).name) == Route(p).name
    ensures Route(p).name == Route(q).name <==> Text.EqualIgnoringCase(p[IndexKey].s, q[IndexKey].s)
  {
    Text.CapitalizeIdempotent(p[IndexKey].s);
    Text.CapitalizeEqualIff(p[IndexKey].s, q[IndexKey].s);
  }

  /** Sample messages. */
  lemma RouteExamples()
    ensures Route(map[CameraKey := JString("enable")]) == Enable
    ensures Route(map[CameraKey := JString("frobnicate")]) == UnknownCamera(JString("frobnicate"))
    ensures Route(map[CameraKey := JString("use"), IndexKey := JString("bob")]) == UseOnce
    ensures Route(map[IndexKey := JString("alice")]) == Index("Alice")
    ensures Route(map["other" := JOther]) == Unknown
  {
    Text.CapitalizeExamples();
  }
}
