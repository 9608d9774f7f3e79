/** The two signal sinks side by side: the software horn and the actuator provider act on
    the same horn signal, each in its own attachment format. */
module SignalSinks {
  import opened Common
  import opened Utf8
  import SoftwareHorn
  import ActuatorProvider

  /** A horn signal as the software horn receives it: the raw attachment `targetValue`. */
  function SoftwareSample(payload: seq<Byte>): SoftwareHorn.Sample {
    SoftwareHorn.Sample(payload, Some(TargetValue))
  }

  /** A horn signal as the actuator provider receives it: the attachment `type=targetValue`. */
  function ActuatorSample(payload: seq<Byte>): ActuatorProvider.Sample {
    ActuatorProvider.Sample(payload, Some([ActuatorProvider.Pair(ActuatorProvider.TypeKey, TargetValue)]))
  }

  /** On "true" and "false" both sinks switch to the signalled state. */
  lemma {:induction false} SinksAgreeOnSignals(b: bool)
    ensures SoftwareHorn.Reaction(SoftwareSample(SoftwareHorn.BoolText(b))) == Some(b)
    ensures ActuatorProvider.Decide(ActuatorSample(SoftwareHorn.BoolText(b))) == ActuatorProvider.Actuate(b)
  {
    SoftwareHorn.TargetSampleReaction(b);
    var text := SoftwareHorn.BoolText(b);
    assert 0 !in text by {
      assert text == TrueText || text == FalseText;
    }
    ActuatorProvider.TargetSampleDecision(text);
  }

  /** On any other well-formed text without NUL bytes the sinks part ways: the software horn
      switches off, the actuator provider leaves its LED as it was. */
  lemma {:induction false} SinksDisagreeOnOtherText(payload: seq<Byte>)
    requires ValidUtf8(payload) && 0 !in payload
    requires payload != TrueText && payload != FalseText
    ensures SoftwareHorn.Reaction(SoftwareSample(payload)) == Some(false)
    ensures ActuatorProvider.Decide(ActuatorSample(payload)) == ActuatorProvider.Faulty
  {
    SoftwareHorn.OtherTextSwitchesOff(payload);
    ActuatorProvider.TargetSampleDecision(payload);
  }
}
