/** The software horn: a signal sink that listens on the horn's key expression, follows
    every `targetValue` sample and answers with the `currentValue` it now has. */
module SoftwareHorn {
  import opened Common
  import opened Utf8

  /** A received zenoh sample: its payload and its optional attachment, both raw bytes. */
  datatype Sample = Sample(payload: seq<Byte>, attachment: Option<seq<Byte>>)

  /** A publication that reached the network. */
  datatype Put = Put(keyExpr: string, payload: seq<Byte>, attachment: seq<Byte>)

  /** What `try_to_string` fails with on bytes that are not well-formed UTF-8. */
  datatype Utf8Error = Utf8Error

  const HornKeyExpr: string := "Vehicle/Body/Horn/IsActive"

  lemma TargetValueValid() ensures ValidUtf8(TargetValue) { }
  lemma TrueTextValid() ensures ValidUtf8(TrueText) { }
  lemma FalseTextValid() ensures ValidUtf8(FalseText) { }

  /** `bool::to_string`. */
  function BoolText(b: bool): (r: seq<Byte>)
    ensures r == TrueText <==> b
    ensures !b ==> r == FalseText
  {
    assert TrueText[0] != FalseText[0];
    if b then TrueText else FalseText
  }

  /** `zbytes_to_string`: the payload read as a string (a Rust string is its UTF-8 bytes),
      or an error when it is not well-formed UTF-8. */
  function ZbytesToString(zbuf: seq<Byte>): (r: Result<seq<Byte>, Utf8Error>)
    ensures r.Ok? <==> ValidUtf8(zbuf)
    ensures r.Ok? ==> r.value == zbuf
  {
    if ValidUtf8(zbuf) then Ok(zbuf) else Err(Utf8Error)
  }

  /** `extract_attachment_as_string`: the attachment read as a string; nothing when there is
      no attachment or it is not well-formed UTF-8. */
  function ExtractAttachmentAsString(sample: Sample): (r: Option<seq<Byte>>)
    ensures r.Some? <==> sample.attachment.Some? && ValidUtf8(sample.attachment.value)
    ensures r.Some? ==> r.value == sample.attachment.value
  {
    match sample.attachment
    case None => None
    case Some(a) => if ZbytesToString(a).Ok? then Some(ZbytesToString(a).value) else None
  }

  /** The decision the receive loop takes on one sample: the status it publishes, if any.
      Only a `targetValue` sample with a string payload asks for one, and the status is on
      exactly when the payload is `"true"`. */
  function Reaction(sample: Sample): (r: Option<bool>)
    ensures r.Some? <==> sample.attachment == Some(TargetValue) && ValidUtf8(sample.payload)
    ensures r == Some(true) <==> sample.attachment == Some(TargetValue) && sample.payload == TrueText
  {
    TargetValueValid();
    TrueTextValid();
    if ExtractAttachmentAsString(sample) == Some(TargetValue) then
      match ZbytesToString(sample.payload)
      case Ok(value) => Some(value == TrueText)
      case Err(_) => None
    else None
  }

  /** The decisions for a run of samples, one per sample. */
  function Decisions(samples: seq<Sample>): (r: seq<Option<bool>>)
    ensures |r| == |samples| && forall i :: 0 <= i < |samples| ==> r[i] == Reaction(samples[i])
  {
    if samples == [] then [] else [Reaction(samples[0])] + Decisions(samples[1..])
  }

  /** The publication `pub_current_status` makes for a status. */
  function StatusPut(status: bool): (p: Put)
    ensures p.keyExpr == HornKeyExpr && p.attachment == CurrentValue
    ensures p.payload == TrueText <==> status
    ensures !status ==> p.payload == FalseText
  {
    Put(HornKeyExpr, BoolText(status), CurrentValue)
  }

  /** The put one decision leads to: none without a status, or when the put fails. */
  function PutFor(decision: Option<bool>, failure: bool): (r: seq<Put>)
    ensures |r| <= 1
    ensures r != [] <==> decision.Some? && !failure
    ensures r != [] ==> r == [StatusPut(decision.value)]
  {
    match decision
    case Some(status) => if failure then [] else [StatusPut(status)]
    case None => []
  }

  /** What the receive loop publishes for a run of decisions, where `failures[i]` says
      whether the put for decision `i` fails. */
  function Published(decisions: seq<Option<bool>>, failures: seq<bool>): (r: seq<Put>)
    requires |failures| == |decisions|
    ensures |r| <= |decisions|
    decreases |decisions|
  {
    if decisions == [] then []
    else
      var n := |decisions| - 1;
      Published(decisions[..n], failures[..n]) + PutFor(decisions[n], failures[n])
  }

  lemma {:induction false} PublishedLast(decisions: seq<Option<bool>>, failures: seq<bool>)
    requires |failures| == |decisions| > 0
    ensures Published(decisions, failures) ==
            Published(decisions[..|decisions| - 1], failures[..|failures| - 1]) +
            PutFor(decisions[|decisions| - 1], failures[|failures| - 1])
  {
  }

  lemma {:induction false} PublishedStep(decisions: seq<Option<bool>>, failures: seq<bool>, i: nat)
    requires |failures| == |decisions| && i < |decisions|
    ensures Published(decisions[..i + 1], failures[..i + 1]) ==
            Published(decisions[..i], failures[..i]) + PutFor(decisions[i], failures[i])
  {
    PublishedLast(decisions[..i + 1], failures[..i + 1]);
    assert decisions[..i + 1][..i] == decisions[..i];
    assert failures[..i + 1][..i] == failures[..i];
  }

  /** The zenoh publisher on the horn's key expression, as the record of what it published. */
  class Publisher {
    const keyExpr: string
    var published: seq<Put>

    constructor (keyExpr: string)
      ensures this.keyExpr == keyExpr && published == []
    {
      this.keyExpr := keyExpr;
      published := [];
    }
  }

  /** `pub_current_status`: put the status with attachment `currentValue`; a failed put
      (`failure`) is logged and leaves nothing behind. */
  method PubCurrentStatus(publisher: Publisher, status: bool, failure: bool)
    requires publisher.keyExpr == HornKeyExpr
    modifies publisher
    ensures publisher.published == old(publisher.published) + PutFor(Some(status), failure)
  {
    if !failure {
      publisher.published := publisher.published + [Put(publisher.keyExpr, BoolText(status), CurrentValue)];
    }
  }

  /** One iteration of the receive loop in `main`: the decision on one sample, and the put
      it leads to. */
  method HandleSample(publisher: Publisher, sample: Sample, failure: bool)
    requires publisher.keyExpr == HornKeyExpr
    modifies publisher
    ensures publisher.published == old(publisher.published) + PutFor(Reaction(sample), failure)
  {
    var valueType := ExtractAttachmentAsString(sample);
    if valueType.Some? && valueType.value == TargetValue {
      match ZbytesToString(sample.payload)
      case Ok(value) =>
        if value == TrueText {
          PubCurrentStatus(publisher, true, failure);
        } else {
          PubCurrentStatus(publisher, false, failure);
        }
      case Err(_) =>
    }
  }

  /** The `while let Ok(sample)` loop of `main`, over the samples received until `recv`
      fails; `failures[i]` is the outcome of the put sample `i` may cause. */
  method ReceiveLoop(publisher: Publisher, samples: seq<Sample>, failures: seq<bool>)
    requires publisher.keyExpr == HornKeyExpr && |failures| == |samples|
    modifies publisher
    ensures publisher.published == old(publisher.published) + Published(Decisions(samples), failures)
  {
    ghost var decisions := Decisions(samples);
    var i := 0;
    while i < |samples|
      invariant 0 <= i <= |samples|
      invariant publisher.published == old(publisher.published) + Published(decisions[..i], failures[..i])
    {
      HandleSample(publisher, samples[i], failures[i]);
      PublishedStep(decisions, failures, i);
      AppendAssoc(old(publisher.published), Published(decisions[..i], failures[..i]), PutFor(decisions[i], failures[i]));
      i := i + 1;
    }
    assert decisions[..i] == decisions;
    assert failures[..i] == failures;
  }

  /** The samples the sink hears back from its own puts (it subscribes to the key it
      publishes on). */
  function Echoes(puts: seq<Put>): (r: seq<Sample>)
    ensures |r| == |puts|
    ensures forall i :: 0 <= i < |puts| ==> r[i] == Sample(puts[i].payload, Some(puts[i].attachment))
  {
    seq(|puts|, i requires 0 <= i < |puts| => Sample(puts[i].payload, Some(puts[i].attachment)))
  }

  /** Decisions without a status publish nothing. */
  lemma {:induction false} NothingDecided(decisions: seq<Option<bool>>, failures: seq<bool>)
    requires |failures| == |decisions|
    requires forall i :: 0 <= i < |decisions| ==> decisions[i].None?
    ensures Published(decisions, failures) == []
    decreases |decisions|
  {
    if decisions != [] {
      var n := |decisions| - 1;
      NothingDecided(decisions[..n], failures[..n]);
      PublishedLast(decisions, failures);
    }
  }

  /** Every put the loop makes is a `currentValue` put on the horn's key. */
  lemma {:induction false} PublishedShape(decisions: seq<Option<bool>>, failures: seq<bool>)
    requires |failures| == |decisions|
    ensures var puts := Published(decisions, failures);
      forall i :: 0 <= i < |puts| ==> puts[i].attachment == CurrentValue && puts[i].keyExpr == HornKeyExpr
    decreases |decisions|
  {
    if decisions != [] {
      var n := |decisions| - 1;
      PublishedShape(decisions[..n], failures[..n]);
      PublishedLast(decisions, failures);
    }
  }

  /** Only `targetValue` samples lead to a put; anything else (no attachment, one that is not
      a string, or another string) is ignored. */
  lemma {:induction false} IgnoredSamples(samples: seq<Sample>, failures: seq<bool>)
    requires |failures| == |samples|
    requires forall i :: 0 <= i < |samples| ==> samples[i].attachment != Some(TargetValue)
    ensures Published(Decisions(samples), failures) == []
  {
    NothingDecided(Decisions(samples), failures);
  }

  /** The sink's own `currentValue` echoes never cause another put. */
  lemma {:induction false} EchoesIgnored(decisions: seq<Option<bool>>, failures: seq<bool>, echoFailures: seq<bool>)
    requires |failures| == |decisions|
    requires |echoFailures| == |Published(decisions, failures)|
    ensures Published(Decisions(Echoes(Published(decisions, failures))), echoFailures) == []
  {
    var puts := Published(decisions, failures);
    PublishedShape(decisions, failures);
    assert TargetValue[0] != CurrentValue[0];
    IgnoredSamples(Echoes(puts), echoFailures);
  }

  lemma {:induction false} TargetSampleReaction(b: bool)
    ensures Reaction(Sample(BoolText(b), Some(TargetValue))) == Some(b)
  {
    TrueTextValid();
    FalseTextValid();
  }

  /** Any well-formed text other than "true" under `targetValue` switches the horn off. */
  lemma {:induction false} OtherTextSwitchesOff(payload: seq<Byte>)
    requires ValidUtf8(payload) && payload != TrueText
    ensures Reaction(Sample(payload, Some(TargetValue))) == Some(false)
  {
    var r := Reaction(Sample(payload, Some(TargetValue)));
    assert r.Some? && r != Some(true);
  }

  /** Decisions that all carry a status, with no put failing, publish one status each, in
      order. */
  lemma {:induction false} AllDecided(decisions: seq<Option<bool>>, failures: seq<bool>)
    requires |failures| == |decisions|
    requires forall i :: 0 <= i < |decisions| ==> decisions[i].Some? && !failures[i]
    ensures var puts := Published(decisions, failures);
      |puts| == |decisions| && forall i :: 0 <= i < |decisions| ==> puts[i] == StatusPut(decisions[i].value)
    decreases |decisions|
  {
    if decisions != [] {
      var n := |decisions| - 1;
      AllDecided(decisions[..n], failures[..n]);
      PublishedLast(decisions, failures);
    }
  }

  /** When no put fails, the sink reports back every signal it is sent as a `targetValue`
      sample: one put per signal, in order, with the same value. */
  lemma {:induction false} FollowsSignals(signals: seq<bool>, samples: seq<Sample>, failures: seq<bool>)
    requires |samples| == |signals| == |failures|
    requires forall i :: 0 <= i < |signals| ==> samples[i] == Sample(BoolText(signals[i]), Some(TargetValue))
    requires forall i :: 0 <= i < |failures| ==> !failures[i]
    ensures var puts := Published(Decisions(samples), failures);
      |puts| == |signals| && forall i :: 0 <= i < |signals| ==> puts[i] == StatusPut(signals[i])
  {
    var decisions := Decisions(samples);
    forall i | 0 <= i < |signals|
      ensures decisions[i] == Some(signals[i])
    {
      TargetSampleReaction(signals[i]);
    }
    AllDecided(decisions, failures);
  }

  /** The puts for two runs of decisions, one after the other, are the puts for each. */
  lemma {:induction false} PublishedAppend(d1: seq<Option<bool>>, f1: seq<bool>, d2: seq<Option<bool>>, f2: seq<bool>)
    requires |f1| == |d1| && |f2| == |d2|
    ensures Published(d1 + d2, f1 + f2) == Published(d1, f1) + Published(d2, f2)
    decreases |d2|
  {
    if d2 == [] {
      assert d1 + d2 == d1 && f1 + f2 == f1;
    } else {
      var n := |d2| - 1;
      var d, f := d1 + d2, f1 + f2;
      assert d[..|d| - 1] == d1 + d2[..n];
      assert f[..|f| - 1] == f1 + f2[..n];
      PublishedAppend(d1, f1, d2[..n], f2[..n]);
      PublishedLast(d, f);
      PublishedLast(d2, f2);
      assert d[|d| - 1] == d2[n] && f[|f| - 1] == f2[n];
      var last := PutFor(d2[n], f2[n]);
      AppendAssoc(Published(d1, f1), Published(d2[..n], f2[..n]), last);
    }
  }

  /** A failed put costs only its own status: the decisions before and after it publish as
      they would have anyway, so the loop carries on after a failure. */
  lemma {:induction false} FailureIsLocal(decisions: seq<Option<bool>>, failures: seq<bool>, k: nat)
    requires |failures| == |decisions| && k < |decisions|
    ensures Published(decisions, failures[k := true]) ==
            Published(decisions[..k], failures[..k]) + Published(decisions[k + 1..], failures[k + 1..])
  {
    var f := failures[k := true];
    var before, after := decisions[..k], decisions[k + 1..];
    var fBefore, fAfter := failures[..k], failures[k + 1..];
    assert decisions == before + ([decisions[k]] + after);
    assert f == fBefore + ([true] + fAfter);
    PublishedAppend(before, fBefore, [decisions[k]] + after, [true] + fAfter);
    PublishedAppend([decisions[k]], [true], after, fAfter);
    PublishedLast([decisions[k]], [true]);
    assert [decisions[k]][..0] == [] && [true][..0] == [];
    var rest := Published(after, fAfter);
    assert Published([decisions[k]], [true]) == [];
    assert [] + rest == rest;
  }
}
