/**
 Codec negotiation: which wire codec and which encoder a session gets, given the
 operator's request, the operator's decoders, the agent's configuration and the
 encoders that passed the probe.
 */
module Negotiation {
  import opened Options
  import opened Text

  // The configuration, and the encoder names the probe validated.
  datatype Agent = Agent(screenshot: bool, videoCodec: string, hwAccel: string, working: set<string>)

  datatype Plan = Plan(codec: string, encoder: string)

  function Clean(s: string): string {
    ToLower(TrimSpace(s))
  }

  function NormalizeWireCodec(c: string): string {
    if Clean(c) == "jpeg" then "mjpeg" else Clean(c)
  }

  function Candidates(codec: string): seq<string> {
    if codec == "h264" then ["h264_nvenc", "h264_qsv", "h264_vaapi", "h264_amf", "h264_videotoolbox", "libx264"]
    else if codec == "vp9" then ["vp9_vaapi", "vp9_qsv", "libvpx-vp9"]
    else if codec == "av1" then ["av1_nvenc", "av1_qsv", "av1_vaapi", "av1_amf", "libsvtav1", "libaom-av1"]
    else if codec == "webp" then ["libwebp"]
    else if codec == "mjpeg" then ["mjpeg"]
    else []
  }

  const CODEC_ORDER: seq<string> := ["av1", "vp9", "h264", "webp"]

  predicate HasSuffix(s: string, suffix: string) {
    |suffix| <= |s| && s[|s| - |suffix|..] == suffix
  }

  function HwOfEncoder(name: string): string {
    if HasSuffix(name, "_nvenc") then "nvenc"
    else if HasSuffix(name, "_qsv") then "qsv"
    else if HasSuffix(name, "_vaapi") then "vaapi"
    else if HasSuffix(name, "_amf") then "amf"
    else if HasSuffix(name, "_videotoolbox") then "videotoolbox"
    else "none"
  }

  /** May this encoder be used under the (cleaned) hardware preference? */
  predicate Admitted(pref: string, name: string) {
    var hw := HwOfEncoder(name);
    pref == "" || pref == "auto" || hw == "none" || (pref != "none" && hw == pref)
  }

  predicate Usable(a: Agent, name: string) {
    Admitted(Clean(a.hwAccel), name) && name in a.working
  }

  /** The first usable candidate. */
  method ResolveEncoder(a: Agent, codec: string) returns (name: Option<string>)
    ensures name == Resolved(a, Candidates(codec))
  {
    var pref := Clean(a.hwAccel);
    var names := Candidates(codec);
    assert names[0..] == names;
    for i := 0 to |names|
      invariant Resolved(a, names) == Resolved(a, names[i..])
    {
      var hw := HwOfEncoder(names[i]);
      if pref == "" || pref == "auto" {
      } else if pref == "none" {
        if hw != "none" {
          continue;
        }
      } else if hw != pref && hw != "none" {
        continue;
      }
      if names[i] !in a.working {
        continue;
      }
      return Some(names[i]);
    }
    return None;
  }

  function Resolved(a: Agent, names: seq<string>): Option<string> {
    if names == [] then None
    else if Usable(a, names[0]) then Some(names[0])
    else Resolved(a, names[1..])
  }

  predicate CodecAllowed(a: Agent, codec: string) {
    var pin := Clean(a.videoCodec);
    pin == "" || pin == "auto" || pin == codec
  }

  predicate OpDecodes(decoders: set<string>, codec: string) {
    codec == "mjpeg" || codec in decoders
  }

  /** The plan for one codec, if policy, operator and probe allow it. */
  function Produced(a: Agent, decoders: set<string>, codec: string): Option<Plan> {
    if !CodecAllowed(a, codec) || !OpDecodes(decoders, codec) then None
    else if codec == "mjpeg" then Some(Plan("mjpeg", "mjpeg"))
    else if codec == "webp" then if "libwebp" in a.working then Some(Plan("webp", "libwebp")) else None
    else match Resolved(a, Candidates(codec))
      case Some(name) => Some(Plan(codec, name))
      case None => None
  }

  method Produce(a: Agent, decoders: set<string>, codec: string) returns (p: Option<Plan>)
    ensures p == Produced(a, decoders, codec)
  {
    if !CodecAllowed(a, codec) || !OpDecodes(decoders, codec) {
      return None;
    }
    if codec == "mjpeg" {
      return Some(Plan("mjpeg", "mjpeg"));
    } else if codec == "webp" {
      if "libwebp" in a.working {
        return Some(Plan("webp", "libwebp"));
      }
    } else {
      var name := ResolveEncoder(a, codec);
      if name.Some? {
        return Some(Plan(codec, name.value));
      }
    }
    return None;
  }

  /** The first codec of a list that can be produced. */
  function FirstOf(a: Agent, decoders: set<string>, codecs: seq<string>): Plan {
    if codecs == [] then Plan("mjpeg", "mjpeg")
    else if Produced(a, decoders, codecs[0]).Some? then Produced(a, decoders, codecs[0]).value
    else FirstOf(a, decoders, codecs[1..])
  }

  predicate Concrete(codec: string) { codec != "" && codec != "auto" }

  function Decoders(opCodecs: seq<string>): set<string> {
    set i | 0 <= i < |opCodecs| :: NormalizeWireCodec(opCodecs[i])
  }

  /** Request, then pin, then the order of efficiency: one list of codecs to try. */
  function Wishes(a: Agent, requested: string): seq<string> {
    (if Concrete(NormalizeWireCodec(requested)) then [NormalizeWireCodec(requested)] else [])
    + (if Concrete(NormalizeWireCodec(a.videoCodec)) then [NormalizeWireCodec(a.videoCodec)] else [])
    + CODEC_ORDER
  }

  function Selected(a: Agent, requested: string, opCodecs: seq<string>): Plan {
    if Decoders(opCodecs) == {} then Plan("mjpeg", "mjpeg")
    else FirstOf(a, Decoders(opCodecs), Wishes(a, requested))
  }

  method SelectEncoder(a: Agent, requested: string, opCodecs: seq<string>) returns (plan: Plan)
    ensures plan == Selected(a, requested, opCodecs)
  {
    var want, pin := NormalizeWireCodec(requested), NormalizeWireCodec(a.videoCodec);
    var canDecode: set<string> := {};
    for i := 0 to |opCodecs|
      invariant canDecode == Decoders(opCodecs[..i])
    {
      canDecode := canDecode + {NormalizeWireCodec(opCodecs[i])};
      assert forall j :: 0 <= j <= i ==> opCodecs[..i + 1][j] == opCodecs[j];
      assert forall j :: 0 <= j < i ==> opCodecs[..i][j] == opCodecs[j];
    }
    assert opCodecs[..|opCodecs|] == opCodecs;
    if canDecode == {} {
      return Plan("mjpeg", "mjpeg");
    }
    WishesUnfold(a, requested, canDecode);
    if want != "" && want != "auto" {
      var p := Produce(a, canDecode, want);
      if p.Some? {
        return p.value;
      }
    }
    if pin != "" && pin != "auto" {
      var p := Produce(a, canDecode, pin);
      if p.Some? {
        return p.value;
      }
    }
    for i := 0 to |CODEC_ORDER|
      invariant FirstOf(a, canDecode, CODEC_ORDER[i..]) == FirstOf(a, canDecode, CODEC_ORDER)
    {
      var p := Produce(a, canDecode, CODEC_ORDER[i]);
      if p.Some? {
        return p.value;
      }
    }
    return Plan("mjpeg", "mjpeg");
  }

  lemma FirstOfAppend(a: Agent, decoders: set<string>, codec: string, rest: seq<string>)
    ensures FirstOf(a, decoders, [codec] + rest) ==
            if Produced(a, decoders, codec).Some? then Produced(a, decoders, codec).value
            else FirstOf(a, decoders, rest)
  {
    assert ([codec] + rest)[1..] == rest;
  }

  lemma WishesUnfold(a: Agent, requested: string, decoders: set<string>)
    ensures var want, pin := NormalizeWireCodec(requested), NormalizeWireCodec(a.videoCodec);
            FirstOf(a, decoders, Wishes(a, requested)) ==
            if Concrete(want) && Produced(a, decoders, want).Some? then Produced(a, decoders, want).value
            else if Concrete(pin) && Produced(a, decoders, pin).Some? then Produced(a, decoders, pin).value
            else FirstOf(a, decoders, CODEC_ORDER)
  {
    var want, pin := NormalizeWireCodec(requested), NormalizeWireCodec(a.videoCodec);
    var tail := (if Concrete(pin) then [pin] else []) + CODEC_ORDER;
    FirstOfAppend(a, decoders, pin, CODEC_ORDER);
    FirstOfAppend(a, decoders, want, tail);
    assert Wishes(a, requested) == (if Concrete(want) then [want] else []) + tail;
    assert [] + CODEC_ORDER == CODEC_ORDER && [] + tail == tail;
  }

  // ----- what the agent advertises

  predicate Offered(a: Agent, codec: string) {
    CodecAllowed(a, codec) && Resolved(a, Candidates(codec)).Some?
  }

  function Advertised(a: Agent): seq<string> {
    if !a.screenshot then []
    else
      (if Offered(a, "av1") then ["av1"] else [])
      + (if Offered(a, "vp9") then ["vp9"] else [])
      + (if Offered(a, "h264") then ["h264"] else [])
      + (if "libwebp" in a.working then ["webp"] else [])
      + ["mjpeg"]
  }

  method VideoCapabilities(a: Agent) returns (caps: seq<string>)
    ensures caps == Advertised(a)
  {
    hide Resolved, CodecAllowed;
    if !a.screenshot {
      return [];
    }
    caps := [];
    for i := 0 to 3
      invariant caps == (if i > 0 && Offered(a, "av1") then ["av1"] else [])
                        + (if i > 1 && Offered(a, "vp9") then ["vp9"] else [])
                        + (if i > 2 && Offered(a, "h264") then ["h264"] else [])
    {
      var codec := ["av1", "vp9", "h264"][i];
      if CodecAllowed(a, codec) {
        var name := ResolveEncoder(a, codec);
        if name.Some? {
          caps := caps + [codec];
        }
      }
    }
    if "libwebp" in a.working {
      caps := caps + ["webp"];
    }
    caps := caps + ["mjpeg"];
  }

  // ----- properties

  lemma {:induction false} ResolvedUsable(a: Agent, names: seq<string>)
    ensures Resolved(a, names).Some? <==> exists i :: 0 <= i < |names| && Usable(a, names[i])
    ensures Resolved(a, names).Some? ==> Resolved(a, names).value in names && Usable(a, Resolved(a, names).value)
  {
    if names != [] {
      ResolvedUsable(a, names[1..]);
      if i :| 0 <= i < |names| && Usable(a, names[i]) {
        assert i == 0 || Usable(a, names[1..][i - 1]);
      }
      if i :| 0 <= i < |names[1..]| && Usable(a, names[1..][i]) {
        assert Usable(a, names[i + 1]);
      }
    }
  }

  /** A plan is within policy, decodable, advertised, and its encoder passed the probe. */
  ghost predicate Good(a: Agent, decoders: set<string>, p: Plan) {
    && (p.codec == "mjpeg" || p.codec in decoders)
    && (a.screenshot ==> p.codec in Advertised(a))
    && (Concrete(Clean(a.videoCodec)) ==> p.codec == "mjpeg" || p.codec == Clean(a.videoCodec))
    && p.encoder in Candidates(p.codec)
    && (p.codec != "mjpeg" ==> p.encoder in a.working)
    && (p.codec in {"av1", "vp9", "h264"} ==> Usable(a, p.encoder))
  }

  lemma ProducedGood(a: Agent, decoders: set<string>, codec: string)
    ensures Produced(a, decoders, codec).Some? ==>
              Produced(a, decoders, codec).value.codec == codec && Good(a, decoders, Produced(a, decoders, codec).value)
  {
    hide Resolved, HwOfEncoder;
    ResolvedUsable(a, Candidates(codec));
  }

  lemma {:induction false} FirstOfGood(a: Agent, decoders: set<string>, codecs: seq<string>)
    ensures Good(a, decoders, FirstOf(a, decoders, codecs))
  {
    if codecs != [] {
      FirstOfGood(a, decoders, codecs[1..]);
      ProducedGood(a, decoders, codecs[0]);
    }
  }

  /** Every selected plan is good, whatever was requested. */
  lemma SelectionGood(a: Agent, requested: string, opCodecs: seq<string>)
    ensures Good(a, Decoders(opCodecs), Selected(a, requested, opCodecs))
  {
    FirstOfGood(a, Decoders(opCodecs), []);
    FirstOfGood(a, Decoders(opCodecs), Wishes(a, requested));
  }

  /** The position of the first codec that can be produced; the length when none can. */
  function FirstIndex(a: Agent, decoders: set<string>, codecs: seq<string>): (n: nat)
    ensures n <= |codecs|
  {
    if codecs == [] || Produced(a, decoders, codecs[0]).Some? then 0 else 1 + FirstIndex(a, decoders, codecs[1..])
  }

  lemma {:induction false} FirstOfIs(a: Agent, decoders: set<string>, codecs: seq<string>)
    ensures var n := FirstIndex(a, decoders, codecs);
            && (forall i :: 0 <= i < n ==> Produced(a, decoders, codecs[i]).None?)
            && (n < |codecs| ==> Produced(a, decoders, codecs[n]) == Some(FirstOf(a, decoders, codecs)))
            && FirstOf(a, decoders, codecs).codec == (if n < |codecs| then codecs[n] else "mjpeg")
  {
    if codecs != [] {
      FirstOfIs(a, decoders, codecs[1..]);
      ProducedGood(a, decoders, codecs[0]);
    }
  }

  /** Without request and pin, the choice is the first entry of the order of efficiency that
      is allowed, decodable and has a working encoder; MJPEG when there is none, or when the
      operator sends no codec list. */
  lemma AutomaticChoice(a: Agent, requested: string, opCodecs: seq<string>)
    requires !Concrete(NormalizeWireCodec(requested)) && !Concrete(NormalizeWireCodec(a.videoCodec))
    ensures var d := Decoders(opCodecs);
            var n, p := FirstIndex(a, d, CODEC_ORDER), Selected(a, requested, opCodecs);
            && (forall i :: 0 <= i < n ==> Produced(a, d, CODEC_ORDER[i]).None?)
            && p.codec == if d != {} && n < |CODEC_ORDER| then CODEC_ORDER[n] else "mjpeg"
  {
    WishesUnfold(a, requested, Decoders(opCodecs));
    FirstOfIs(a, Decoders(opCodecs), CODEC_ORDER);
  }

  /** More operator decoders and more working encoders, the rest alike. */
  ghost predicate Stronger(a: Agent, b: Agent) {
    b.videoCodec == a.videoCodec && b.hwAccel == a.hwAccel && a.working <= b.working
  }

  lemma StrongerProduces(a: Agent, b: Agent, d: set<string>, e: set<string>, codec: string)
    requires Stronger(a, b) && d <= e && Produced(a, d, codec).Some?
    ensures Produced(b, e, codec).Some?
  {
    var names := Candidates(codec);
    ResolvedUsable(a, names);
    ResolvedUsable(b, names);
    if i :| 0 <= i < |names| && Usable(a, names[i]) {
      assert Usable(b, names[i]);
    }
  }

  lemma {:induction false} IndexImproves(a: Agent, b: Agent, d: set<string>, e: set<string>, codecs: seq<string>)
    requires Stronger(a, b) && d <= e
    ensures FirstIndex(b, e, codecs) <= FirstIndex(a, d, codecs)
  {
    if codecs != [] {
      IndexImproves(a, b, d, e, codecs[1..]);
      if Produced(a, d, codecs[0]).Some? {
        StrongerProduces(a, b, d, e, codecs[0]);
      }
    }
  }

  /** How far down the list of wishes the choice lies; its length stands for MJPEG, which is
      also what an operator without a codec list gets. */
  function Rank(a: Agent, requested: string, opCodecs: seq<string>): (n: nat)
    ensures n <= |Wishes(a, requested)|
  {
    if Decoders(opCodecs) == {} then |Wishes(a, requested)|
    else FirstIndex(a, Decoders(opCodecs), Wishes(a, requested))
  }

  lemma RankOfSelection(a: Agent, requested: string, opCodecs: seq<string>)
    ensures var w, n := Wishes(a, requested), Rank(a, requested, opCodecs);
            && Selected(a, requested, opCodecs).codec == (if n < |w| then w[n] else "mjpeg")
            && (Decoders(opCodecs) != {} ==> forall i :: 0 <= i < n ==> Produced(a, Decoders(opCodecs), w[i]).None?)
  {
    FirstOfIs(a, Decoders(opCodecs), Wishes(a, requested));
  }

  /** The choice is the first wish that can be produced (request, pin, efficiency), and it
      never moves down the list as the operator decodes more and more encoders work. */
  lemma SelectionImproves(a: Agent, b: Agent, requested: string, ops: seq<string>, more: seq<string>)
    requires Stronger(a, b)
    ensures var w := Wishes(a, requested);
            var n, m := Rank(a, requested, ops), Rank(b, requested, ops + more);
            && m <= n
            && Selected(a, requested, ops).codec == (if n < |w| then w[n] else "mjpeg")
            && Selected(b, requested, ops + more).codec == (if m < |w| then w[m] else "mjpeg")
  {
    forall i | 0 <= i < |ops|
      ensures NormalizeWireCodec(ops[i]) in Decoders(ops + more)
    {
      assert (ops + more)[i] == ops[i];
    }
    assert Wishes(b, requested) == Wishes(a, requested);
    IndexImproves(a, b, Decoders(ops), Decoders(ops + more), Wishes(a, requested));
    RankOfSelection(a, requested, ops);
    RankOfSelection(b, requested, ops + more);
  }

  /** Software is used only when no admitted hardware encoder works: the candidates list
      hardware first. */
  lemma HardwareFirst(a: Agent, codec: string, i: nat)
    requires Resolved(a, Candidates(codec)).Some? && HwOfEncoder(Resolved(a, Candidates(codec)).value) == "none"
    requires i < |Candidates(codec)| && HwOfEncoder(Candidates(codec)[i]) != "none"
    ensures !Usable(a, Candidates(codec)[i])
  {
    var names := Candidates(codec);
    var k := FirstUsable(a, names);
    HardwareBeforeSoftware(codec, i, k);
  }

  lemma {:induction false} FirstUsable(a: Agent, names: seq<string>) returns (k: nat)
    requires Resolved(a, names).Some?
    ensures k < |names| && Resolved(a, names) == Some(names[k])
    ensures forall j :: 0 <= j < k ==> !Usable(a, names[j])
  {
    hide Usable;
    if Usable(a, names[0]) {
      k := 0;
    } else {
      var n := FirstUsable(a, names[1..]);
      k := n + 1;
      assert forall j :: 0 < j < k ==> names[j] == names[1..][j - 1];
    }
  }

  lemma HardwareBeforeSoftware(codec: string, i: nat, k: nat)
    requires i < |Candidates(codec)| && k < |Candidates(codec)|
    requires HwOfEncoder(Candidates(codec)[i]) != "none" && HwOfEncoder(Candidates(codec)[k]) == "none"
    ensures i < k
  {
    hide HwOfEncoder;
    HardwareOfH264();
    HardwareOfVp9();
    HardwareOfAv1();
  }

  lemma Hardware(stem: string, hw: string)
    requires hw in {"nvenc", "qsv", "vaapi", "amf", "videotoolbox"}
    ensures HwOfEncoder(stem + "_" + hw) != "none"
  {
    assert HasSuffix(stem + "_" + hw, "_" + hw);
    assert "_" + "nvenc" == "_nvenc" && "_" + "qsv" == "_qsv" && "_" + "vaapi" == "_vaapi";
    assert "_" + "amf" == "_amf" && "_" + "videotoolbox" == "_videotoolbox";
  }

  lemma Software(name: string)
    requires name != "" && name[|name| - 1] !in {'c', 'v', 'i', 'f', 'x'}
    ensures HwOfEncoder(name) == "none"
  {
  }

  lemma HardwareOfH264()
    ensures forall i :: 0 <= i < 5 ==> HwOfEncoder(Candidates("h264")[i]) != "none"
  {
    hide HwOfEncoder;
    Hardware("h264", "nvenc");
    Hardware("h264", "qsv");
    Hardware("h264", "vaapi");
    Hardware("h264", "amf");
    Hardware("h264", "videotoolbox");
    assert "h264" + "_" + "nvenc" == "h264_nvenc" && "h264" + "_" + "qsv" == "h264_qsv";
    assert "h264" + "_" + "vaapi" == "h264_vaapi" && "h264" + "_" + "amf" == "h264_amf";
    assert "h264" + "_" + "videotoolbox" == "h264_videotoolbox";
  }

  lemma HardwareOfVp9()
    ensures forall i :: 0 <= i < 2 ==> HwOfEncoder(Candidates("vp9")[i]) != "none"
  {
    hide HwOfEncoder;
    Hardware("vp9", "vaapi");
    Hardware("vp9", "qsv");
    assert "vp9" + "_" + "vaapi" == "vp9_vaapi" && "vp9" + "_" + "qsv" == "vp9_qsv";
  }

  lemma HardwareOfAv1()
    ensures forall i :: 0 <= i < 4 ==> HwOfEncoder(Candidates("av1")[i]) != "none"
    ensures HwOfEncoder("libsvtav1") == HwOfEncoder("libaom-av1") == "none"
  {
    hide HwOfEncoder;
    Hardware("av1", "nvenc");
    Hardware("av1", "qsv");
    Hardware("av1", "vaapi");
    Hardware("av1", "amf");
    Software("libsvtav1");
    Software("libaom-av1");
    assert "av1" + "_" + "nvenc" == "av1_nvenc" && "av1" + "_" + "qsv" == "av1_qsv";
    assert "av1" + "_" + "vaapi" == "av1_vaapi" && "av1" + "_" + "amf" == "av1_amf";
  }
}
