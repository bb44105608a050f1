/**
 * The read as its design documents it, where the code falls short of it.
 * A non-string `mountService` is passed over, leaving the setting as it was:
 * the code checks the token type, but as written the value is neither read
 * nor skipped and the read fails at the next member name (ReadKnownField).
 * A non-string `theme` or `uiOrientation` falls back to the setting's
 * default, as a string naming no constant does: as written, the typed read
 * fails before the fallback parse is reached. Every other member is read
 * exactly as before.
 */
module SettingsJsonAdapterIntended {
  import opened Wrappers
  import opened Json
  import opened SettingsRecord
  import opened SettingsJsonAdapter
  import opened SettingsJsonAdapterProperties

  /** Whether the corrected read takes the member `name: value` differently: a non-string where a string is read leniently. */
  predicate Tolerated(name: string, value: JsonValue) {
    !value.JString? && (name == MountService.Name() || name == Theme.Name() || name == UiOrientation.Name())
  }

  /**
   * One turn of the corrected read loop: a non-string `mountService` is
   * skipped, and a non-string `theme` or `uiOrientation` gives its default.
   */
  function ReadFieldIntended(st: ReadState, name: string, value: JsonValue): (r: Result<ReadState, ReadError>)
    ensures name == MountService.Name() && !value.JString? ==> r == Ok(st)
    ensures name == Theme.Name() && !value.JString? ==>
      r == Ok(st.(settings := st.settings.(theme := DefaultTheme)))
    ensures name == UiOrientation.Name() && !value.JString? ==>
      r == Ok(st.(settings := st.settings.(userInterfaceOrientation := DefaultUserInterfaceOrientation)))
  {
    if name == MountService.Name() && !value.JString? then Ok(st)
    else if name == Theme.Name() && !value.JString? then
      Ok(st.(settings := st.settings.(theme := DefaultTheme)))
    else if name == UiOrientation.Name() && !value.JString? then
      Ok(st.(settings := st.settings.(userInterfaceOrientation := DefaultUserInterfaceOrientation)))
    else ReadField(st, name, value)
  }

  /** The corrected read loop over `ms`, in document order; it stops at the first error. */
  function ReadFieldsIntended(ms: seq<Member>, st: ReadState): (r: Result<ReadState, ReadError>)
    ensures r.Ok? <==> forall i :: 0 <= i < |ms| ==>
      Readable(ms[i].0, ms[i].1) || Tolerated(ms[i].0, ms[i].1)
  {
    if |ms| == 0 then Ok(st)
    else
      var prior :- ReadFieldsIntended(ms[..|ms| - 1], st);
      ReadFieldIntended(prior, ms[|ms| - 1].0, ms[|ms| - 1].1)
  }

  /**
   * The corrected whole-document read, with the same migration as Decode.
   * A document decodes exactly when it is an object whose every member is
   * readable or is read leniently.
   */
  function DecodeIntended(doc: JsonValue, os: OS, defaults: Settings): (r: Result<Settings, ReadError>)
    ensures r.Ok? <==> doc.JObject? && forall i :: 0 <= i < |doc.members| ==>
      Readable(doc.members[i].0, doc.members[i].1) || Tolerated(doc.members[i].0, doc.members[i].1)
    ensures !doc.JObject? ==> r == Err(ExpectedObject)
  {
    if !doc.JObject? then Err(ExpectedObject)
    else
      var st :- ReadFieldsIntended(doc.members, ReadState(defaults, None));
      Ok(Migrate(st, os))
  }

  /** Every member the correction does not concern is read as the adapter reads it. */
  lemma ReadFieldIntendedAgrees(st: ReadState, name: string, value: JsonValue)
    requires !Tolerated(name, value)
    ensures ReadFieldIntended(st, name, value) == ReadField(st, name, value)
  {
  }

  /** A corrected run of members read after another continues from the state the first run left. */
  lemma {:induction false} ReadFieldsIntendedAppend(a: seq<Member>, b: seq<Member>, st: ReadState)
    ensures ReadFieldsIntended(a + b, st) ==
      match ReadFieldsIntended(a, st)
      case Err(e) => Err(e)
      case Ok(mid) => ReadFieldsIntended(b, mid)
  {
    if |b| == 0 {
      assert a + b == a;
    } else {
      ReadFieldsIntendedAppend(a, b[..|b| - 1], st);
      assert (a + b)[..|a + b| - 1] == a + b[..|b| - 1];
    }
  }

  /**
   * The intended behaviour: a `mountService` member whose value is not a
   * string may stand anywhere in a document without changing what it
   * decodes to, errors included.
   */
  lemma NonStringMountServiceSkipped(before: seq<Member>, after: seq<Member>, value: JsonValue,
                                     os: OS, defaults: Settings)
    requires !value.JString?
    ensures DecodeIntended(JObject(before + [(MountService.Name(), value)] + after), os, defaults)
         == DecodeIntended(JObject(before + after), os, defaults)
  {
    var st := ReadState(defaults, None);
    var m := (MountService.Name(), value);
    ReadFieldsIntendedAppend(before + [m], after, st);
    ReadFieldsIntendedAppend(before, [m], st);
    ReadFieldsIntendedAppend(before, after, st);
    assert [m][..0] == [];
  }

  /**
   * On a document without a non-string `mountService`, `theme` or
   * `uiOrientation` the corrected read and the adapter's read agree, so the
   * correction changes nothing else.
   */
  lemma {:induction false} ReadFieldsIntendedAgrees(ms: seq<Member>, st: ReadState)
    requires forall i :: 0 <= i < |ms| ==> !Tolerated(ms[i].0, ms[i].1)
    ensures ReadFieldsIntended(ms, st) == ReadFields(ms, st)
  {
    if |ms| > 0 {
      var prefix := ms[..|ms| - 1];
      ReadFieldsIntendedAgrees(prefix, st);
      if ReadFields(prefix, st).Ok? {
        ReadFieldIntendedAgrees(ReadFields(prefix, st).value, ms[|ms| - 1].0, ms[|ms| - 1].1);
      }
    }
  }

  /** Decode and its correction agree on every document the correction does not concern. */
  lemma DecodeIntendedAgrees(ms: seq<Member>, os: OS, defaults: Settings)
    requires forall i :: 0 <= i < |ms| ==> !Tolerated(ms[i].0, ms[i].1)
    ensures DecodeIntended(JObject(ms), os, defaults) == Decode(JObject(ms), os, defaults)
  {
    ReadFieldsIntendedAgrees(ms, ReadState(defaults, None));
  }

  /**
   * The input that shows the difference: `{"mountService": 123}` fails as
   * written, and decodes to the defaults as intended.
   */
  lemma NonStringMountServiceCounterexample(os: OS, defaults: Settings)
    ensures Decode(JObject([(MountService.Name(), JNumber(123))]), os, defaults)
         == Err(ExpectedName("mountService"))
    ensures DecodeIntended(JObject([(MountService.Name(), JNumber(123))]), os, defaults) == Ok(defaults)
  {
    var ms := [(MountService.Name(), JNumber(123))];
    NonStringMountServiceFails(ms, 0, os, defaults);
    assert ms[..0] == [];
    assert ReadFieldsIntended(ms, ReadState(defaults, None)) == Ok(ReadState(defaults, None));
  }

  /**
   * The intended enum fallback: a `theme` or `uiOrientation` member whose
   * value is not a string reads as one naming the setting's default, and the
   * rest of the document decodes as it would without that member.
   */
  lemma NonStringEnumDefaulted(before: seq<Member>, after: seq<Member>, name: string, value: JsonValue,
                               os: OS, defaults: Settings)
    requires !value.JString? && (name == Theme.Name() || name == UiOrientation.Name())
    ensures var fallback := if name == Theme.Name() then DefaultTheme.Name() else DefaultUserInterfaceOrientation.Name();
      DecodeIntended(JObject(before + [(name, value)] + after), os, defaults)
      == DecodeIntended(JObject(before + [(name, JString(fallback))] + after), os, defaults)
    ensures DecodeIntended(JObject(before + [(name, value)] + after), os, defaults).Ok?
        <==> DecodeIntended(JObject(before + after), os, defaults).Ok?
  {
    var st := ReadState(defaults, None);
    var fallback := if name == Theme.Name() then DefaultTheme.Name() else DefaultUserInterfaceOrientation.Name();
    var m, d := (name, value), (name, JString(fallback));
    ReadFieldsIntendedAppend(before + [m], after, st);
    ReadFieldsIntendedAppend(before, [m], st);
    ReadFieldsIntendedAppend(before + [d], after, st);
    ReadFieldsIntendedAppend(before, [d], st);
    ReadFieldsIntendedAppend(before, after, st);
    assert [m][..0] == [] && [d][..0] == [];
    if ReadFieldsIntended(before, st).Ok? {
      FallbackAsDefaultName(ReadFieldsIntended(before, st).value, name, value);
    }
  }

  /** One corrected step: a non-string enum value reads as the default's name does. */
  lemma FallbackAsDefaultName(st: ReadState, name: string, value: JsonValue)
    requires !value.JString? && (name == Theme.Name() || name == UiOrientation.Name())
    ensures var fallback := if name == Theme.Name() then DefaultTheme.Name() else DefaultUserInterfaceOrientation.Name();
      ReadFieldIntended(st, name, value) == ReadFieldIntended(st, name, JString(fallback))
  {
    FieldNamedExactly(name, Theme);
    FieldNamedExactly(name, UiOrientation);
    ParseUiThemeName(DefaultTheme);
    ParseUiOrientationName(DefaultUserInterfaceOrientation);
  }

  /**
   * The input that shows the difference for themes: `{"theme": true}` fails
   * as written, and decodes to the defaults with the default theme as intended.
   */
  lemma NonStringThemeCounterexample(os: OS, defaults: Settings)
    ensures Decode(JObject([("theme", JBool(true))]), os, defaults) == Err(ExpectedString("theme"))
    ensures DecodeIntended(JObject([("theme", JBool(true))]), os, defaults)
         == Ok(defaults.(theme := DefaultTheme))
  {
    var t := [("theme", JBool(true))];
    NonStringEnumFails(t, 0, os, defaults);
    assert t[..0] == [];
    assert ReadFieldsIntended(t, ReadState(defaults, None)) == Ok(ReadState(defaults.(theme := DefaultTheme), None));
  }

  /**
   * The same for orientations: `{"uiOrientation": null}` fails as written,
   * and decodes to the defaults with the default orientation as intended.
   */
  lemma NonStringOrientationCounterexample(os: OS, defaults: Settings)
    ensures Decode(JObject([("uiOrientation", JNull)]), os, defaults) == Err(ExpectedString("uiOrientation"))
    ensures DecodeIntended(JObject([("uiOrientation", JNull)]), os, defaults)
         == Ok(defaults.(userInterfaceOrientation := DefaultUserInterfaceOrientation))
  {
    var o := [("uiOrientation", JNull)];
    NonStringEnumFails(o, 0, os, defaults);
    assert o[..0] == [];
    assert ReadFieldsIntended(o, ReadState(defaults, None))
        == Ok(ReadState(defaults.(userInterfaceOrientation := DefaultUserInterfaceOrientation), None));
  }
}
