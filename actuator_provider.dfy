/** The actuator provider: firmware for a microcontroller that drives the horn's LED from
    `targetValue` samples, answers with `currentValue`, validates its router address and
    retries its Wi-Fi connection a bounded number of times. Memory is bytes; a C string is
    the bytes before the first NUL. */
module ActuatorProvider {
  import opened Common

  /** The bytes a `char *` denotes: everything before the first NUL. */
  function CStr(b: seq<Byte>): (r: seq<Byte>)
    ensures |r| <= |b|
    decreases |b|
  {
    if b == [] || b[0] == 0 then [] else [b[0]] + CStr(b[1..])
  }

  /** A C string is the longest NUL-free prefix of its buffer: the bytes up to the first NUL,
      which ends it unless the buffer does. */
  lemma {:induction false} CStrIsPrefix(b: seq<Byte>)
    ensures var r := CStr(b);
      r == b[..|r|] && 0 !in r && (|r| < |b| ==> b[|r|] == 0)
    decreases |b|
  {
    if b != [] && b[0] != 0 {
      CStrIsPrefix(b[1..]);
    }
  }

  /** A buffer with no NUL in it is its own C string. */
  lemma {:induction false} CStrOfNulFree(b: seq<Byte>)
    requires 0 !in b
    ensures CStr(b) == b
    decreases |b|
  {
    if b != [] {
      CStrOfNulFree(b[1..]);
    }
  }

  /** Appending a terminator does not change the C string a buffer holds. */
  lemma {:induction false} CStrOfTerminated(b: seq<Byte>)
    ensures CStr(b + [0]) == CStr(b)
    decreases |b|
  {
    if b == [] {
      assert b + [0] == [0];
    } else if b[0] != 0 {
      assert (b + [0])[1..] == b[1..] + [0];
      CStrOfTerminated(b[1..]);
    }
  }

  // ---------------------------------------------------------------- attachment_handler

  /** `signal_type_t`, with the codes the C enum gives its members. */
  datatype SignalType = SignalCurrentValue | SignalTargetValue | SignalUnknown

  function Code(t: SignalType): int {
    match t
    case SignalCurrentValue => 0
    case SignalTargetValue => 1
    case SignalUnknown => 2
  }

  /** What the C standard leaves undefined and the model refuses to follow. */
  datatype UndefinedBehaviour = BufferOverflow

  /** The size of the stack buffer `attachment_handler` copies the value into. */
  const TypeBufferSize: nat := 50

  /** The classification of the text an attachment value holds. */
  function Classify(text: seq<Byte>): (t: SignalType)
    ensures t == SignalCurrentValue <==> text == CurrentValue
    ensures t == SignalTargetValue <==> text == TargetValue
    ensures t == SignalUnknown <==> text != CurrentValue && text != TargetValue
  {
    assert CurrentValue[0] != TargetValue[0];
    if text == CurrentValue then SignalCurrentValue
    else if text == TargetValue then SignalTargetValue
    else SignalUnknown
  }

  /** `attachment_handler` as written: the value is copied into a 50-byte buffer and
      terminated at index `value.len`, which writes past the buffer once the value has 50
      bytes or more. The key is ignored. */
  function AttachmentHandlerAsWritten(key: seq<Byte>, value: seq<Byte>): (r: Result<SignalType, UndefinedBehaviour>)
    ensures r.Err? <==> |value| >= TypeBufferSize
  {
    if |value| >= TypeBufferSize then Err(BufferOverflow)
    else Ok(Classify(CStr(value)))
  }

  /** `attachment_handler` as intended: the value's text classified whatever its length.
      No known type name is 50 bytes long, so a long value is simply unknown. */
  function AttachmentHandler(key: seq<Byte>, value: seq<Byte>): (t: SignalType)
    ensures t == SignalCurrentValue <==> CStr(value) == CurrentValue
    ensures t == SignalTargetValue <==> CStr(value) == TargetValue
    ensures |CStr(value)| >= TypeBufferSize ==> t == SignalUnknown
  {
    Classify(CStr(value))
  }

  /** Where the code as written is defined, it agrees with the intended handler. */
  lemma {:induction false} AttachmentHandlerAgrees(key: seq<Byte>, value: seq<Byte>)
    ensures AttachmentHandlerAsWritten(key, value).Ok? ==>
              AttachmentHandlerAsWritten(key, value).value == AttachmentHandler(key, value)
  {
  }

  /** A 50-byte attachment value, which a peer may send, overflows the buffer. */
  lemma {:induction false} AttachmentOverflowExample(key: seq<Byte>, value: seq<Byte>)
    requires |value| == 50 && forall i :: 0 <= i < |value| ==> value[i] == 0x61
    ensures AttachmentHandlerAsWritten(key, value) == Err(BufferOverflow)
    ensures AttachmentHandler(key, value) == SignalUnknown
  {
    CStrOfNulFree(value);
  }

  // ---------------------------------------------------------------- z_attachment_iterate

  /** One key/value pair of a sample's attachment. */
  datatype Pair = Pair(key: seq<Byte>, value: seq<Byte>)

  /** `z_attachment_iterate(attachment, attachment_handler, NULL)`: the handler runs on each
      pair in order and the iteration stops at the first nonzero result, which it returns;
      0 (the code of `currentValue`) when every pair gave 0 or there are none. */
  function AttachmentIterate(pairs: seq<Pair>): (r: int)
    ensures r in {0, 1, 2}
    decreases |pairs|
  {
    if pairs == [] then 0
    else
      var c := Code(AttachmentHandler(pairs[0].key, pairs[0].value));
      if c != 0 then c else AttachmentIterate(pairs[1..])
  }

  /** The iteration reports `currentValue` exactly when every pair is a `currentValue`,
      which an attachment without pairs vacuously is. */
  lemma {:induction false} AttachmentIterateCurrent(pairs: seq<Pair>)
    ensures AttachmentIterate(pairs) == 0 <==>
      forall i :: 0 <= i < |pairs| ==> AttachmentHandler(pairs[i].key, pairs[i].value) == SignalCurrentValue
    decreases |pairs|
  {
    if pairs != [] {
      AttachmentIterateCurrent(pairs[1..]);
      assert forall i :: 1 <= i < |pairs| ==> pairs[i] == pairs[1..][i - 1];
    }
  }

  /** The iteration's result is the classification of the first pair that is not a
      `currentValue`. */
  lemma {:induction false} AttachmentIterateFirst(pairs: seq<Pair>, i: nat)
    requires i < |pairs| && AttachmentHandler(pairs[i].key, pairs[i].value) != SignalCurrentValue
    requires forall j :: 0 <= j < i ==> AttachmentHandler(pairs[j].key, pairs[j].value) == SignalCurrentValue
    ensures AttachmentIterate(pairs) == Code(AttachmentHandler(pairs[i].key, pairs[i].value))
    decreases i
  {
    if i > 0 {
      assert AttachmentHandler(pairs[0].key, pairs[0].value) == SignalCurrentValue;
      assert pairs[1..][i - 1] == pairs[i];
      AttachmentIterateFirst(pairs[1..], i - 1);
    }
  }

  /** The attachment the horn service sends, a single `type` pair, classifies as its value. */
  lemma {:induction false} SinglePairIterate(key: seq<Byte>, value: seq<Byte>)
    ensures AttachmentIterate([Pair(key, value)]) == Code(AttachmentHandler(key, value))
  {
  }

  // ---------------------------------------------------------------- is_valid_tcp_url

  /** The bytes of "tcp/". */
  const TcpPrefix: seq<Byte> := [0x74, 0x63, 0x70, 0x2F]
  const Colon: Byte := 0x3A

  /** `REG_NOMATCH` in the C library the firmware links against. */
  const RegNoMatch: int := 1

  predicate IsDigit(b: Byte) { 0x30 <= b <= 0x39 }

  /** What `^tcp/.*:[0-9]+$` (extended syntax) accepts: the prefix `tcp/`, then anything,
      then a colon that is followed by one or more digits up to the end. */
  ghost predicate MatchesTcpUrl(u: seq<Byte>) {
    |u| >= 4 && u[..4] == TcpPrefix && exists j :: 4 <= j < |u| - 1 && ColonThenDigits(u, j)
  }

  /** Position `j` of `u` holds a colon and only digits follow it. */
  predicate ColonThenDigits(u: seq<Byte>, j: nat)
    requires j < |u|
  {
    u[j] == Colon && forall k :: j < k < |u| ==> IsDigit(u[k])
  }

  /** The length of the run of digits `u` ends with. */
  function TrailingDigits(u: seq<Byte>): (n: nat)
    ensures n <= |u|
    ensures forall k :: |u| - n <= k < |u| ==> IsDigit(u[k])
    ensures n < |u| ==> !IsDigit(u[|u| - n - 1])
    decreases |u|
  {
    if u == [] || !IsDigit(u[|u| - 1]) then 0 else TrailingDigits(u[..|u| - 1]) + 1
  }

  /** `is_valid_tcp_url`: 0 when the URL matches, `REG_NOMATCH` when it does not, and -1
      when the pattern cannot be compiled (`compiles` is false). */
  function IsValidTcpUrl(url: seq<Byte>, compiles: bool): (r: int)
    ensures !compiles ==> r == -1
    ensures compiles ==> (r == 0 <==> MatchesTcpUrl(CStr(url)))
    ensures compiles ==> (r == RegNoMatch <==> !MatchesTcpUrl(CStr(url)))
  {
    var u := CStr(url);
    var d := TrailingDigits(u);
    var matches := |u| >= 4 && u[..4] == TcpPrefix && d >= 1 && |u| - d - 1 >= 4 && u[|u| - d - 1] == Colon;
    TrailingDigitsMatch(u);
    if !compiles then -1 else if matches then 0 else RegNoMatch
  }

  /** Scanning back over the trailing digits decides the pattern: it matches exactly when
      the byte before the digits is a colon that comes after the prefix. */
  lemma {:induction false} TrailingDigitsMatch(u: seq<Byte>)
    ensures MatchesTcpUrl(u) <==>
      |u| >= 4 && u[..4] == TcpPrefix && TrailingDigits(u) >= 1 &&
      |u| - TrailingDigits(u) - 1 >= 4 && u[|u| - TrailingDigits(u) - 1] == Colon
  {
    var d := TrailingDigits(u);
    if MatchesTcpUrl(u) {
      var j :| 4 <= j < |u| - 1 && ColonThenDigits(u, j);
      DigitsAfterColon(u, j);
    }
    if |u| >= 4 && u[..4] == TcpPrefix && d >= 1 && |u| - d - 1 >= 4 && u[|u| - d - 1] == Colon {
      assert ColonThenDigits(u, |u| - d - 1);
    }
  }

  /** A colon followed only by digits is where the trailing digits start. */
  lemma {:induction false} DigitsAfterColon(u: seq<Byte>, j: nat)
    requires j < |u| && ColonThenDigits(u, j)
    ensures TrailingDigits(u) == |u| - j - 1
  {
  }

  /** Whether `app_main` puts CONNECT into the session configuration, as written: an empty
      string means scouting, and otherwise the URL is inserted when the validator returns
      nonzero, which is when it does NOT match (or the pattern failed to compile). */
  function ConnectInsertedAsWritten(connect: seq<Byte>, compiles: bool): (inserted: bool)
    ensures CStr(connect) == [] ==> !inserted
    ensures CStr(connect) != [] && compiles ==> (inserted <==> !MatchesTcpUrl(CStr(connect)))
    ensures CStr(connect) != [] && !compiles ==> inserted
  {
    if CStr(connect) == [] then false else IsValidTcpUrl(connect, compiles) != 0
  }

  /** The intended check: a non-empty CONNECT is used exactly when it is a valid TCP URL. */
  function ConnectInserted(connect: seq<Byte>, compiles: bool): (inserted: bool)
    ensures inserted <==> CStr(connect) != [] && compiles && MatchesTcpUrl(CStr(connect))
  {
    CStr(connect) != [] && IsValidTcpUrl(connect, compiles) == 0
  }

  /** For a non-empty CONNECT and a pattern that compiles, the code as written and the
      intended check disagree on every URL: each inserts exactly what the other leaves out. */
  lemma {:induction false} ConnectInverted(connect: seq<Byte>)
    requires CStr(connect) != []
    ensures ConnectInsertedAsWritten(connect, true) == !ConnectInserted(connect, true)
  {
  }

  /** Every well-formed router URL, `tcp/<host>:<port>` such as `tcp/10.0.0.1:7447`, is
      dropped by the code as written and kept by the intended check. */
  lemma {:induction false} ConnectInvertedExample(host: seq<Byte>, port: seq<Byte>)
    requires 0 !in host && port != [] && forall k :: 0 <= k < |port| ==> IsDigit(port[k])
    ensures var url := TcpPrefix + host + [Colon] + port;
      !ConnectInsertedAsWritten(url, true) && ConnectInserted(url, true)
  {
    var url := TcpPrefix + host + [Colon] + port;
    var j := |TcpPrefix| + |host|;
    assert forall k :: j < k < |url| ==> url[k] == port[k - j - 1];
    assert CStr(url) == url by {
      assert 0 !in url by {
        assert 0 !in TcpPrefix && 0 !in port;
      }
      CStrOfNulFree(url);
    }
    assert MatchesTcpUrl(url) by {
      assert url[..4] == TcpPrefix;
      assert ColonThenDigits(url, j);
    }
  }

  /** The bytes of "#iface=docker0", the interface suffix of the router address format the
      build configuration documents. */
  const IfaceSuffix: seq<Byte> := [0x23, 0x69, 0x66, 0x61, 0x63, 0x65, 0x3D, 0x64, 0x6F, 0x63, 0x6B, 0x65, 0x72, 0x30]

  /** The documented format `tcp/<ip>:<port>#iface=docker0` does not end in digits, so it
      does not match the pattern: the code as written inserts it, and a check that only
      inverted the test would drop it. */
  lemma {:induction false} ConnectDocumentedFormat(host: seq<Byte>, port: seq<Byte>)
    requires 0 !in host && port != [] && forall k :: 0 <= k < |port| ==> IsDigit(port[k])
    ensures var url := TcpPrefix + host + [Colon] + port + IfaceSuffix;
      ConnectInsertedAsWritten(url, true) && !ConnectInserted(url, true)
  {
    var url := TcpPrefix + host + [Colon] + port + IfaceSuffix;
    assert CStr(url) == url by {
      assert 0 !in url by {
        assert 0 !in TcpPrefix && 0 !in port && 0 !in IfaceSuffix;
      }
      CStrOfNulFree(url);
    }
    assert TrailingDigits(url) == 1 by {
      var init := url[..|url| - 1];
      assert url[|url| - 1] == 0x30 && init[|init| - 1] == 0x72;
      assert TrailingDigits(init) == 0;
    }
    assert !MatchesTcpUrl(url) by {
      TrailingDigitsMatch(url);
    }
  }

  // ---------------------------------------------------------------- payload_to_string

  /** `payload_to_string`: a fresh buffer one byte longer than the payload, holding the
      payload's bytes in order and then a NUL. */
  method PayloadToString(payload: seq<Byte>) returns (s: array<Byte>)
    ensures fresh(s)
    ensures s[..] == payload + [0]
  {
    s := new Byte[|payload| + 1];
    var i := 0;
    while i < |payload|
      invariant 0 <= i <= |payload|
      invariant s[..i] == payload[..i]
    {
      s[i] := payload[i];
      i := i + 1;
    }
    s[|payload|] := 0;
    assert s[..] == s[..|payload|] + [s[|payload|]];
  }

  // ---------------------------------------------------------------- sample_handler

  /** A received sample; a missing attachment is what `z_attachment_check` rejects. */
  datatype Sample = Sample(payload: seq<Byte>, attachment: Option<seq<Pair>>)

  /** A publication: its payload and its attachment. */
  datatype Publication = Publication(payload: seq<Byte>, attachment: seq<Pair>)

  /** The bytes of "type", the attachment key `pub_status` uses. */
  const TypeKey: seq<Byte> := [0x74, 0x79, 0x70, 0x65]

  /** The size of `pub_status`'s formatting buffer. */
  const StatusBufferSize: nat := 32

  /** What `sample_handler` does with one sample. */
  datatype Action =
    | Ignore            // no attachment, a `currentValue` or unknown type: discarded
    | Actuate(on: bool) // a `targetValue` of "true" or "false"
    | Faulty            // a `targetValue` with any other payload

  /** The decision `sample_handler` takes: only a `targetValue` sample acts, and only on an
      exact "true" or "false" (compared as C strings). */
  function Decide(sample: Sample): Action {
    if sample.attachment.None? then Ignore
    else
      var typeResult := AttachmentIterate(sample.attachment.value);
      if typeResult == Code(SignalTargetValue) then
        var valueStr := CStr(sample.payload + [0]);
        if valueStr == TrueText then Actuate(true)
        else if valueStr == FalseText then Actuate(false)
        else Faulty
      else Ignore
  }

  /** An effect the firmware has on the world, in the order it has them. */
  datatype Effect = SetLevel(level: int) | Publish(publication: Publication)

  /** The three outcomes of a sample: a `targetValue` whose payload's text is "true",
      "false" or anything else; every other sample is ignored. */
  lemma {:induction false} DecideCases(sample: Sample)
    ensures var target := sample.attachment.Some? &&
                          AttachmentIterate(sample.attachment.value) == Code(SignalTargetValue);
      var text := CStr(sample.payload + [0]);
      (Decide(sample) == Actuate(true) <==> target && text == TrueText) &&
      (Decide(sample) == Actuate(false) <==> target && text == FalseText) &&
      (Decide(sample) == Faulty <==> target && text != TrueText && text != FalseText) &&
      (Decide(sample) == Ignore <==> !target)
  {
    assert TrueText[0] != FalseText[0];
  }

  /** The publication `pub_status` makes for a value. */
  function StatusPublication(valueStr: seq<Byte>): (p: Publication)
    ensures p.payload == CStr(valueStr) && p.attachment == [Pair(TypeKey, CurrentValue)]
  {
    Publication(CStr(valueStr), [Pair(TypeKey, CurrentValue)])
  }

  /** The effects of an action: to actuate is to set the LED's level, then to report it. */
  function ActionEffects(a: Action): seq<Effect> {
    if a.Actuate? then
      [SetLevel(if a.on then 1 else 0),
       Publish(Publication(if a.on then TrueText else FalseText, [Pair(TypeKey, CurrentValue)]))]
    else []
  }

  /** What a sample does: only an exact "true" or "false" `targetValue` has effects; the LED
      is switched first, and then the same text, cut at its first NUL, is reported as the
      current value. */
  lemma {:induction false} SampleEffects(sample: Sample)
    ensures var e := ActionEffects(Decide(sample));
      var text := CStr(sample.payload + [0]);
      (e != [] <==> Decide(sample).Actuate?) &&
      (e != [] ==> |e| == 2 &&
                   (e[0] == SetLevel(1) <==> text == TrueText) &&
                   (e[0] == SetLevel(0) <==> text == FalseText) &&
                   e[1] == Publish(Publication(text, [Pair(TypeKey, CurrentValue)])))
  {
    if Decide(sample).Actuate? {
      assert TrueText[0] != FalseText[0];
    }
  }

  /** The firmware's observable state: the LED's level, its effects so far, and how many heap
      buffers are allocated and not yet freed. */
  class Provider {
    var ledLevel: int
    var effects: seq<Effect>
    var liveBuffers: nat

    constructor ()
      ensures ledLevel == 0 && effects == [] && liveBuffers == 0
    {
      ledLevel, effects, liveBuffers := 0, [], 0;
    }

    /** `turn_led`: level 1 for on, 0 for off. */
    method TurnLed(on: bool)
      modifies this`ledLevel, this`effects
      ensures ledLevel == (if on then 1 else 0)
      ensures effects == old(effects) + [SetLevel(ledLevel)]
    {
      if on {
        ledLevel := 1;
      } else if !on {
        ledLevel := 0;
      }
      effects := effects + [SetLevel(ledLevel)];
    }

    /** `pub_status`: the value is formatted into a 32-byte buffer (so it must be shorter
        than that) and published with the attachment `type=currentValue`. */
    method PubStatus(valueStr: seq<Byte>)
      requires |CStr(valueStr)| < StatusBufferSize
      modifies this`effects
      ensures effects == old(effects) + [Publish(StatusPublication(valueStr))]
    {
      var buf := CStr(valueStr);
      effects := effects + [Publish(Publication(buf, [Pair(TypeKey, CurrentValue)]))];
    }

    /** `payload_to_string`, with the heap's bookkeeping of live buffers. */
    method Allocate(payload: seq<Byte>) returns (s: array<Byte>)
      modifies this`liveBuffers
      ensures fresh(s) && s[..] == payload + [0]
      ensures liveBuffers == old(liveBuffers) + 1
    {
      s := PayloadToString(payload);
      liveBuffers := liveBuffers + 1;
    }

    method Free()
      requires liveBuffers > 0
      modifies this`liveBuffers
      ensures liveBuffers == old(liveBuffers) - 1
    {
      liveBuffers := liveBuffers - 1;
    }

    /** `sample_handler` as written: the faulty-payload branch never frees the string it
        allocated. */
    method SampleHandlerAsWritten(sample: Sample)
      modifies this
      ensures effects == old(effects) + ActionEffects(Decide(sample))
      ensures ledLevel == (if Decide(sample).Actuate? then (if Decide(sample).on then 1 else 0) else old(ledLevel))
      ensures liveBuffers == old(liveBuffers) + (if Decide(sample) == Faulty then 1 else 0)
    {
      if sample.attachment.Some? {
        var typeResult := AttachmentIterate(sample.attachment.value);
        if typeResult == Code(SignalCurrentValue) {
        } else if typeResult == Code(SignalTargetValue) {
          var valueStr := Allocate(sample.payload);
          HandleTarget(valueStr, false);
        } else if typeResult == Code(SignalUnknown) {
        }
      }
    }

    /** `sample_handler` as intended: the string is freed on every path. */
    method SampleHandler(sample: Sample)
      modifies this
      ensures effects == old(effects) + ActionEffects(Decide(sample))
      ensures ledLevel == (if Decide(sample).Actuate? then (if Decide(sample).on then 1 else 0) else old(ledLevel))
      ensures liveBuffers == old(liveBuffers)
    {
      if sample.attachment.Some? {
        var typeResult := AttachmentIterate(sample.attachment.value);
        if typeResult == Code(SignalCurrentValue) {
        } else if typeResult == Code(SignalTargetValue) {
          var valueStr := Allocate(sample.payload);
          HandleTarget(valueStr, true);
        } else if typeResult == Code(SignalUnknown) {
        }
      }
    }

    /** The `targetValue` branch of `sample_handler`, on the string `payload_to_string` made;
        `freeWhenFaulty` says whether the faulty branch frees it. */
    method HandleTarget(valueStr: array<Byte>, freeWhenFaulty: bool)
      requires liveBuffers > 0
      modifies this
      ensures CStr(valueStr[..]) == TrueText ==>
                ledLevel == 1 && liveBuffers == old(liveBuffers) - 1 &&
                effects == old(effects) + [SetLevel(1), Publish(Publication(TrueText, [Pair(TypeKey, CurrentValue)]))]
      ensures CStr(valueStr[..]) == FalseText ==>
                ledLevel == 0 && liveBuffers == old(liveBuffers) - 1 &&
                effects == old(effects) + [SetLevel(0), Publish(Publication(FalseText, [Pair(TypeKey, CurrentValue)]))]
      ensures CStr(valueStr[..]) != TrueText && CStr(valueStr[..]) != FalseText ==>
                ledLevel == old(ledLevel) && effects == old(effects) &&
                liveBuffers == old(liveBuffers) - (if freeWhenFaulty then 1 else 0)
    {
      var text := CStr(valueStr[..]);
      if text == TrueText {
        TurnLed(true);
        PubStatus(valueStr[..]);
        Free();
      } else if text == FalseText {
        TurnLed(false);
        PubStatus(valueStr[..]);
        Free();
      } else if freeWhenFaulty {
        Free();
      }
    }
  }

  /** A `targetValue` sample whose payload holds no NUL: "true" and "false" actuate, and any
      other text (such as "on") is faulty, which leaves the code as written holding its
      string allocated. */
  lemma {:induction false} TargetSampleDecision(payload: seq<Byte>)
    requires 0 !in payload
    ensures Decide(Sample(payload, Some([Pair(TypeKey, TargetValue)]))) ==
      if payload == TrueText then Actuate(true)
      else if payload == FalseText then Actuate(false)
      else Faulty
  {
    assert AttachmentIterate([Pair(TypeKey, TargetValue)]) == Code(SignalTargetValue) by {
      CStrOfNulFree(TargetValue);
      SinglePairIterate(TypeKey, TargetValue);
    }
    assert CStr(payload + [0]) == payload by {
      CStrOfTerminated(payload);
      CStrOfNulFree(payload);
    }
  }

  // ---------------------------------------------------------------- event_handler

  /** The events `event_handler` is registered for; every other Wi-Fi event is `Other`. */
  datatype WifiEvent = StaStart | StaDisconnected | GotIp | Other

  /** The globals `event_handler` updates: the retry count, how many times it asked the
      driver to connect, and the event group's connected bit. */
  datatype WifiState = WifiState(retryCount: nat, connectRequests: nat, connected: bool)

  /** The reference behaviour of one event: the driver is asked to connect on start and,
      while fewer than `maxRetry` retries were made since the last address, on each loss. */
  function Step(s: WifiState, e: WifiEvent, maxRetry: nat): (t: WifiState)
    ensures s.retryCount <= maxRetry ==> t.retryCount <= maxRetry
    ensures e == GotIp ==> t.retryCount == 0 && t.connected
    ensures e != GotIp ==> t.connected == s.connected
  {
    match e
    case StaStart => s.(connectRequests := s.connectRequests + 1)
    case StaDisconnected =>
      if s.retryCount < maxRetry then s.(connectRequests := s.connectRequests + 1, retryCount := s.retryCount + 1)
      else s
    case GotIp => s.(connected := true, retryCount := 0)
    case Other => s
  }

  /** A sequence of events, in the order the event loop delivers them. */
  function Run(s: WifiState, events: seq<WifiEvent>, maxRetry: nat): WifiState
    decreases |events|
  {
    if events == [] then s else Run(Step(s, events[0], maxRetry), events[1..], maxRetry)
  }

  /** The retry count never passes the configured maximum, whatever the events. */
  lemma {:induction false} RetryBounded(s: WifiState, events: seq<WifiEvent>, maxRetry: nat)
    requires s.retryCount <= maxRetry
    ensures Run(s, events, maxRetry).retryCount <= maxRetry
    decreases |events|
  {
    if events != [] {
      RetryBounded(Step(s, events[0], maxRetry), events[1..], maxRetry);
    }
  }

  /** `k` losses in a row lead to `maxRetry - retryCount` more connection attempts at most:
      the count grows to `min(retryCount + k, maxRetry)` and stops there. */
  lemma {:induction false} DisconnectRun(s: WifiState, k: nat, maxRetry: nat)
    requires s.retryCount <= maxRetry
    ensures var t := Run(s, seq(k, _ => StaDisconnected), maxRetry);
      t.retryCount == Min(s.retryCount + k, maxRetry) &&
      t.connectRequests == s.connectRequests + (Min(s.retryCount + k, maxRetry) - s.retryCount) &&
      t.connected == s.connected
    decreases k
  {
    var events := seq(k, _ => StaDisconnected);
    if k > 0 {
      assert events[1..] == seq(k - 1, _ => StaDisconnected);
      DisconnectRun(Step(s, StaDisconnected, maxRetry), k - 1, maxRetry);
    }
  }

  /** An address resets the count, so the next losses get the full number of retries. */
  lemma {:induction false} GotIpRestoresRetries(s: WifiState, k: nat, maxRetry: nat)
    ensures var t := Run(s, [GotIp] + seq(k, _ => StaDisconnected), maxRetry);
      t.retryCount == Min(k, maxRetry) && t.connected &&
      t.connectRequests == s.connectRequests + Min(k, maxRetry)
  {
    var events := [GotIp] + seq(k, _ => StaDisconnected);
    assert events[0] == GotIp && events[1..] == seq(k, _ => StaDisconnected);
    DisconnectRun(Step(s, GotIp, maxRetry), k, maxRetry);
  }

  /** The station's globals, which `event_handler` updates in place. */
  class WifiStation {
    const maxRetry: nat
    var retryCount: nat
    var connectRequests: nat
    var connected: bool

    function State(): WifiState
      reads this
    {
      WifiState(retryCount, connectRequests, connected)
    }

    constructor (maxRetry: nat)
      ensures this.maxRetry == maxRetry && State() == WifiState(0, 0, false)
    {
      this.maxRetry := maxRetry;
      retryCount, connectRequests, connected := 0, 0, false;
    }

    /** `event_handler` for one event. */
    method EventHandler(e: WifiEvent)
      modifies this
      ensures State() == Step(old(State()), e, maxRetry)
    {
      if e == StaStart {
        connectRequests := connectRequests + 1;
      } else if e == StaDisconnected {
        if retryCount < maxRetry {
          connectRequests := connectRequests + 1;
          retryCount := retryCount + 1;
        }
      } else if e == GotIp {
        connected := true;
        retryCount := 0;
      }
    }
  }
}
