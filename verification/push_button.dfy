/** The Push to Live button: disabled below a perfect score, with the
    attributes that follow from that one flag. */
module PushButton {
  import opened Wrappers
  import opened Text
  import App

  datatype ButtonView = ButtonView(
    disabled: bool,
    ariaDisabled: bool,
    hoverScale: Option<real>,
    tapScale: Option<real>,
    ariaLabel: string)

  const EnabledLabel: string := "Push to Live - Deploy campaign to production"
  const DisabledPrefix: string := "Push to Live disabled. Compliance score is "
  const DisabledSuffix: string := ", needs to be 100"

  function DisabledLabel(score: int): string {
    DisabledPrefix + IntToString(score) + DisabledSuffix
  }

  /** The button for a score: disabled exactly below 100, `aria-disabled`
      mirroring `disabled`, hover and tap scaling only when enabled, and a
      label that names the score only when disabled. */
  function View(score: int): (v: ButtonView)
    ensures v.disabled <==> score < 100
    ensures v.ariaDisabled == v.disabled
    ensures v.hoverScale.Some? <==> !v.disabled
    ensures v.tapScale.Some? <==> !v.disabled
    ensures v.hoverScale.Some? ==> v.hoverScale.value == 1.05
    ensures v.tapScale.Some? ==> v.tapScale.value == 0.95
    ensures v.disabled ==> v.ariaLabel == DisabledLabel(score)
    ensures !v.disabled ==> v.ariaLabel == EnabledLabel
  {
    var disabled := score < 100;
    ButtonView(disabled, disabled,
               if disabled then None else Some(1.05),
               if disabled then None else Some(0.95),
               if disabled then DisabledLabel(score) else EnabledLabel)
  }

  /** The disabled label carries the score faithfully: two disabled buttons
      with the same label have the same score. */
  lemma DisabledLabelNamesScore(a: int, b: int)
    requires a < 100 && b < 100
    requires View(a).ariaLabel == View(b).ariaLabel
    ensures a == b
  {
    var la := DisabledLabel(a);
    var lb := DisabledLabel(b);
    var lo := |DisabledPrefix|;
    assert la[lo..|la| - |DisabledSuffix|] == IntToString(a);
    assert lb[lo..|lb| - |DisabledSuffix|] == IntToString(b);
    IntToStringInjective(a, b);
  }

  /** For scores the dashboard can hold (at most 100) the button is enabled
      exactly when a click would push. */
  lemma EnabledIffPushAttempted(score: int)
    requires score <= 100
    ensures !View(score).disabled <==> App.PushAttempted(App.Number(score))
  {
  }
}
