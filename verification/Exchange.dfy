/** Both rings and the command processor together: the guest submits commands and reads
    completions, the host decodes and processes commands and writes completions, one shared
    access per step, in any interleaving. */
module Exchange {
  import opened Words
  import opened Protocol
  import opened Channel
  import opened ChannelTheorems
  import opened ChannelProgress
  import opened Tracker
  import opened Processor
  import opened Ownership
  import opened Decoding
  import opened Wire
  import TrackerRuns
  import opened TrackedHandles

  const PROTOCOL_MAGIC: u32 := 0x47525659
  const VERSION_MAJOR: nat := 0
  const VERSION_MINOR: nat := 1
  const HOST_FEATURES: u32 := 91                 // ring buffer, MSL, compute, blit, display
  const MAX_TEXTURE_SIZE: u32 := 16384
  const MAX_BUFFER_SIZE: u32 := 268435456        // 256 MiB
  const MAX_THREADS_PER_GROUP: u32 := 1024

  // ---- the three responses ----

  function Zeros(n: nat): seq<byte> { seq(n, _ => 0) }

  function HelloResponse(sequence: u32): (r: seq<byte>)
    ensures |r| == 56
  {
    InitHeader(CMD_HELLO, 56, sequence) + HelloBody()
  }

  function HelloBody(): (r: seq<byte>)
    ensures |r| == 40
  {
    Bytes32(PROTOCOL_MAGIC) + Bytes16(VERSION_MAJOR) + Bytes16(VERSION_MINOR) + Bytes32(HOST_FEATURES)
    + Bytes32(MAX_TEXTURE_SIZE) + Bytes32(MAX_BUFFER_SIZE) + Bytes32(MAX_THREADS_PER_GROUP) + Zeros(16)
  }

  function Pong(sequence: u32): (r: seq<byte>)
    ensures |r| == 16
  {
    InitHeader(CMD_PONG, 16, sequence) + []
  }

  function Completed(handle: u32, sequence: u32): (r: seq<byte>)
    ensures |r| == 32
  {
    InitHeader(CMD_CMDBUF_COMPLETED, 32, sequence) + (Bytes32(handle) + Bytes32(0) + Zeros(8))
  }

  /** The completion process_command writes for the command in its buffer, if any; `found`
      says that the tracker knows the handle as a command buffer. */
  function Response(b: HostBuffer, found: bool): seq<seq<byte>> {
    var h := ReadHeader(b);
    if h.opcode == CMD_HELLO then [HelloResponse(h.sequence)]
    else if h.opcode == CMD_PING then [Pong(h.sequence)]
    else if h.opcode == CMD_CMDBUF_COMMIT && found then [Completed(Le32(b, 16), h.sequence)]
    else []
  }

  /** The header of a completion, field by field. */
  predicate Heads(r: seq<byte>, opcode: nat, sequence: u32) {
    && |r| >= 16
    && Le16(r, 0) == opcode && Le16(r, 2) == 0
    && Le32(r, 4) == |r| && Le32(r, 8) == sequence && Le32(r, 12) == 0
  }

  /** The response to HELLO as the guest reads it: magic, protocol 0.1, the feature bits for
      ring buffer, MSL, compute, blit and display, and the three limits. */
  predicate SaysHello(r: seq<byte>, sequence: u32) {
    && |r| == 56 && Heads(r, 0x0001, sequence)
    && Le32(r, 16) == 0x47525659 && Le16(r, 20) == 0 && Le16(r, 22) == 1
    && Le32(r, 24) == 1 + 2 + 8 + 16 + 64
    && Le32(r, 28) == 16384 && Le32(r, 32) == 0x1000_0000 && Le32(r, 36) == 1024
    && forall k :: 40 <= k < 56 ==> r[k] == 0
  }

  /** The completion of a commit: its handle, status 0, and no GPU time. */
  predicate SaysCompleted(r: seq<byte>, handle: u32, sequence: u32) {
    && |r| == 32 && Heads(r, 0x0503, sequence)
    && Le32(r, 16) == handle && Le32(r, 20) == 0 && Le32(r, 24) == Le32(r, 28) == 0
  }

  lemma HeaderReads(opcode: nat, sequence: u32, body: seq<byte>)
    requires opcode < 0x1_0000 && HEADER_SIZE + |body| < TWO32
    ensures Heads(InitHeader(opcode, HEADER_SIZE + |body|, sequence) + body, opcode, sequence)
  {
    hide InitHeader, Le16, Le32;
    HeaderRoundTrip(opcode, HEADER_SIZE + |body|, sequence, body);
    FieldsOf(InitHeader(opcode, HEADER_SIZE + |body|, sequence) + body);
  }

  lemma FieldsOf(r: seq<byte>)
    requires |r| >= HEADER_SIZE
    ensures ReadHeader(r) == Header(Le16(r, 0), Le16(r, 2), Le32(r, 4), Le32(r, 8), Le32(r, 12))
  {
  }

  lemma HelloReads(sequence: u32)
    ensures SaysHello(HelloResponse(sequence), sequence)
  {
    hide InitHeader, Le16, Le32, Heads;
    var r := HelloResponse(sequence);
    HeaderReads(CMD_HELLO, sequence, HelloBody());
    assert r[16..] == HelloBody();
    assert r[16..20] == Bytes32(PROTOCOL_MAGIC) && r[20..22] == Bytes16(0) && r[22..24] == Bytes16(1);
    assert r[24..28] == Bytes32(91) && r[28..32] == Bytes32(16384);
    assert r[32..36] == Bytes32(0x1000_0000) && r[36..40] == Bytes32(1024);
    Le32At(r, 16, PROTOCOL_MAGIC);
    Le16At(r, 20, 0);
    Le16At(r, 22, 1);
    Le32At(r, 24, 91);
    Le32At(r, 28, 16384);
    Le32At(r, 32, 0x1000_0000);
    Le32At(r, 36, 1024);
    assert forall k :: 40 <= k < 56 ==> r[k] == HelloBody()[k - 16];
  }

  lemma CompletedReads(handle: u32, sequence: u32)
    ensures SaysCompleted(Completed(handle, sequence), handle, sequence)
  {
    hide InitHeader, Le16, Le32, Heads;
    var r := Completed(handle, sequence);
    HeaderReads(CMD_CMDBUF_COMPLETED, sequence, Bytes32(handle) + Bytes32(0) + Zeros(8));
    assert r[16..20] == Bytes32(handle) && r[20..24] == Bytes32(0);
    assert r[24..28] == Bytes32(0) && r[28..32] == Bytes32(0);
    Le32At(r, 16, handle);
    Le32At(r, 20, 0);
    Le32At(r, 24, 0);
    Le32At(r, 28, 0);
  }

  /** Exactly HELLO, PING and found commits get one completion, and it says, in every field,
      what the request calls for under the request's sequence number. */
  lemma ResponseEchoes(b: HostBuffer, found: bool)
    ensures var op, q, rs := Le16(b, 0), Le32(b, 8), Response(b, found);
            && (|rs| == 1 <==> op == 0x0001 || op == 0x0003 || (op == 0x0501 && found))
            && (|rs| == 0 || |rs| == 1)
            && forall r :: r in rs ==>
                 && HEADER_SIZE <= |r| <= 56 && Le32(r, 4) == |r|
                 && (op == 0x0001 ==> SaysHello(r, q))
                 && (op == 0x0003 ==> |r| == 16 && Heads(r, 0x0004, q))
                 && (op == 0x0501 ==> SaysCompleted(r, Le32(b, 16), q))
  {
    hide HelloResponse, Completed, InitHeader, Le16, Le32;
    FieldsOf(b);
    var q := ReadHeader(b).sequence;
    HelloReads(q);
    HeaderReads(CMD_PONG, q, []);
    CompletedReads(Le32(b, 16), q);
  }

  // ---- the system ----

  /** One completion the host tried to write: the frame, and the free space it found. */
  datatype Answer = Answer(frame: seq<byte>, space: int)

  predicate Sent(a: Answer) { a.space >= |a.frame| }

  /** A command handed to process_command: the buffer it lies in, and which of the Vulkan
      calls it makes succeed. */
  datatype Service = Service(buffer: HostBuffer, outcomes: Outcomes)

  function JobOf(v: Service): Job { Job(Decode(v.buffer), v.outcomes) }

  function Jobs(served: seq<Service>): seq<Job> {
    seq(|served|, k requires 0 <= k < |served| => JobOf(served[k]))
  }

  /** The processor after one more command. Where the handlers read a resource of another
      type than they assume, the C code is undefined; here it does nothing. */
  ghost function Advance(w: World, v: Service): World {
    if Sized(w.tracker) && KindsMatch(w.tracker) && Typed(w.tracker, Decode(v.buffer))
    then Processor.Step(w, Decode(v.buffer), v.outcomes) else w
  }

  /** The commit in the buffer finds its command buffer in the tracker. */
  ghost predicate Found(w: World, b: HostBuffer) {
    Sized(w.tracker) && CommitFinds(w.tracker, Le32(b, 16))
  }

  /** `due` is the completion process_command is about to write, `buffer` is cmd_buf;
      `served` and `answers` are history, one service a dispatched command, one answer an
      attempted write. */
  datatype System = System(
    cmd: Chan, comp: Chan,
    due: seq<seq<byte>>, buffer: HostBuffer, world: World,
    served: seq<Service>, answers: seq<Answer>)

  datatype Configs = Configs(cmd: Config, comp: Config)

  ghost predicate ValidConfigs(c: Configs) {
    && ValidConfig(c.cmd) && c.cmd.kind.Commands?
    && ValidConfig(c.comp) && c.comp.kind.Completions?
    && c.comp.bufSize >= 56                      // the guest's buffer holds any completion
  }

  datatype Event =
    | Submit(data: seq<byte>)                    // the guest enters cmd_write
    | GuestStores                                // its next step there
    | GuestPolls                                 // the guest's next step in comp_read
    | HostRuns(outcomes: Outcomes)               // the host's next step

  /** cmd_buf once peek has copied a whole frame into it. */
  function Buffered(s: System): HostBuffer {
    if s.cmd.cons.ReadingBody? && HEADER_SIZE <= |s.cmd.cons.got| <= HOST_BUFFER
       && |s.cmd.cons.got| >= SizeField(s.cmd.cons.got)
    then s.cmd.cons.got + s.buffer[|s.cmd.cons.got|..] else s.buffer
  }

  /** A frame overlays the front of the buffer; behind it lies what was there before. */
  lemma FrameOverlaysBuffer(s: System)
    requires s.cmd.cons.ReadingBody? && HEADER_SIZE <= |s.cmd.cons.got| <= HOST_BUFFER
    requires |s.cmd.cons.got| >= SizeField(s.cmd.cons.got)
    ensures forall i :: 0 <= i < |s.cmd.cons.got| ==> Buffered(s)[i] == s.cmd.cons.got[i]
    ensures forall i :: |s.cmd.cons.got| <= i < HOST_BUFFER ==> Buffered(s)[i] == s.buffer[i]
  {
    hide ReadHeader;
  }

  /** The host finishes writing a completion before it consumes the command. */
  ghost function HostStep(c: Configs, s: System, o: Outcomes): System
    requires c.cmd.size > 0 && c.comp.size > 0
  {
    if s.comp.prod.Copying? then s.(comp := ProduceStep(c.comp, s.comp))
    else if s.due != [] then
      s.(comp := BeginStep(c.comp, s.comp, s.due[0]), due := [],
         answers := s.answers + [Answer(s.due[0], Space(c.comp, s.comp))])
    else
      var cmd, v := ConsumeStep(c.cmd, s.cmd), Service(Buffered(s), o);
      if |cmd.delivered| > |s.cmd.delivered| then
        s.(cmd := cmd, buffer := v.buffer, due := Response(v.buffer, Found(s.world, v.buffer)),
           world := Advance(s.world, v), served := s.served + [v])
      else s.(cmd := cmd, buffer := v.buffer)
  }

  ghost function SystemStep(c: Configs, s: System, e: Event): System
    requires c.cmd.size > 0 && c.comp.size > 0
  {
    match e
    case Submit(data) => s.(cmd := BeginStep(c.cmd, s.cmd, data))
    case GuestStores => s.(cmd := ProduceStep(c.cmd, s.cmd))
    case GuestPolls => s.(comp := ConsumeStep(c.comp, s.comp))
    case HostRuns(o) => HostStep(c, s, o)
  }

  ghost function SystemRun(c: Configs, s: System, events: seq<Event>): System
    requires c.cmd.size > 0 && c.comp.size > 0
    decreases |events|
  {
    if events == [] then s else SystemRun(c, SystemStep(c, s, events[0]), events[1..])
  }

  /** `junk` is what the command buffer on the host's stack holds at first. */
  function SystemStart(c: Configs, junk: HostBuffer): System {
    System(Channel.Initial(c.cmd), Channel.Initial(c.comp), [], junk, Start(), [], [])
  }

  // ---- the bookkeeping ----

  /** The processor after the commands served. */
  ghost function After(w: World, served: seq<Service>): World
    decreases |served|
  {
    if served == [] then w else After(Advance(w, served[0]), served[1..])
  }

  /** The completions due for the commands served, in order: whether a commit gets one is
      what the tracker says when its turn comes. */
  ghost function Due(w: World, served: seq<Service>): seq<seq<byte>>
    decreases |served|
  {
    if served == [] then []
    else
      var b := served[0].buffer;
      Response(b, Found(w, b)) + Due(Advance(w, served[0]), served[1..])
  }

  lemma {:induction false} ServeOneMore(w: World, served: seq<Service>, v: Service)
    ensures After(w, served + [v]) == Advance(After(w, served), v)
    ensures Due(w, served + [v]) == Due(w, served) + Response(v.buffer, Found(After(w, served), v.buffer))
    decreases |served|
  {
    hide Advance, Response, Found;
    if served == [] {
      assert served + [v] == [v] && [v][1..] == [];
    } else {
      assert (served + [v])[1..] == served[1..] + [v];
      ServeOneMore(Advance(w, served[0]), served[1..], v);
    }
  }

  function Frames(answers: seq<Answer>): seq<seq<byte>> {
    seq(|answers|, k requires 0 <= k < |answers| => answers[k].frame)
  }

  /** The completions that found space, in order. */
  function SentFrames(answers: seq<Answer>): seq<seq<byte>> {
    if answers == [] then []
    else
      var n := |answers| - 1;
      SentFrames(answers[..n]) + (if Sent(answers[n]) then [answers[n].frame] else [])
  }

  function Copied(p: Producer): seq<seq<byte>> {
    if p.Copying? then [p.data] else []
  }

  /** Each dispatched frame lies at the front of the buffer it was served from. */
  predicate InBuffers(delivered: seq<seq<byte>>, served: seq<Service>) {
    && |served| == |delivered|
    && forall k :: 0 <= k < |delivered| ==> HEADER_SIZE <= |delivered[k]| && delivered[k] <= served[k].buffer
  }

  /** A full frame was served as the command of that frame alone. */
  ghost predicate ServedAsSent(delivered: seq<seq<byte>>, served: seq<Service>)
    requires InBuffers(delivered, served)
  {
    forall k :: 0 <= k < |delivered| && FullFrame(delivered[k]) ==>
      JobOf(served[k]).command == DecodeFrame(delivered[k])
  }

  lemma FramesServedAsSent(delivered: seq<seq<byte>>, served: seq<Service>)
    requires InBuffers(delivered, served)
    ensures ServedAsSent(delivered, served)
  {
    hide Decode, DecodeFrame, FullFrame;
    forall k | 0 <= k < |delivered| && FullFrame(delivered[k])
      ensures JobOf(served[k]).command == DecodeFrame(delivered[k])
    {
      FrameDeterminesCommand(delivered[k], served[k].buffer);
    }
  }

  ghost predicate CmdPart(c: Config, cmd: Chan, due: seq<seq<byte>>, world: World, served: seq<Service>,
                          tried: seq<seq<byte>>) {
    && Inv(c, cmd) && DispatchInv(cmd)
    && InBuffers(cmd.delivered, served)
    && tried + due == Due(Start(), served)
    && world == After(Start(), served)
    && |due| <= 1
  }

  ghost predicate CompPart(c: Config, comp: Chan, due: seq<seq<byte>>, answers: seq<Answer>) {
    && Inv(c, comp) && FrameInv(comp)
    && SentFrames(answers) == comp.accepted + Copied(comp.prod)
    && (forall f :: f in comp.accepted ==> WellFormedFrame(c, f))
    && (forall f :: f in Copied(comp.prod) ==> WellFormedFrame(c, f))
    && (forall f :: f in due ==> WellFormedFrame(c, f))
    && SpacesTrue(c.size, answers)
  }

  /** Each attempt found at least the space left by everything sent before it. */
  ghost predicate SpacesTrue(size: nat, answers: seq<Answer>) {
    forall k :: 0 <= k < |answers| ==>
      answers[k].space >= size - 1 - |Flatten(SentFrames(answers[..k]))|
  }

  ghost predicate SystemInv(c: Configs, s: System) {
    && ValidConfigs(c) && c.cmd.size > 0 && c.comp.size > 0
    && CmdPart(c.cmd, s.cmd, s.due, s.world, s.served, Frames(s.answers))
    && CompPart(c.comp, s.comp, s.due, s.answers)
  }

  // ---- steps ----

  lemma GuestCmdStep(c: Configs, s: System, a: Action)
    requires SystemInv(c, s) && !a.Consume?
    ensures SystemInv(c, s.(cmd := Channel.Step(c.cmd, s.cmd, a)))
  {
    hide Inv, DispatchInv, Due, After, CompPart;
    StepKeepsInv(c.cmd, s.cmd, a);
    StepKeepsDispatch(c.cmd, s.cmd, a);
  }

  lemma GuestPollStep(c: Configs, s: System)
    requires SystemInv(c, s)
    ensures SystemInv(c, s.(comp := ConsumeStep(c.comp, s.comp)))
  {
    hide Inv, FrameInv, CmdPart, WellFormedFrame, SentFrames, SpacesTrue;
    StepKeepsInv(c.comp, s.comp, Consume);
    StepKeepsFrames(c.comp, s.comp, Consume);
    ReadsOnly(c.comp, s.comp);
  }

  lemma ReadsOnly(c: Config, s: Chan)
    requires c.size > 0
    ensures ConsumeStep(c, s).accepted == s.accepted && ConsumeStep(c, s).prod == s.prod
  {
  }

  /** A store or a publication: the frame being copied stays, or joins the accepted ones. */
  lemma StoreOrPublish(c: Config, s: Chan)
    requires Inv(c, s)
    ensures var n := ProduceStep(c, s); n.accepted + Copied(n.prod) == s.accepted + Copied(s.prod)
    ensures var n := ProduceStep(c, s);
            && (forall f :: f in n.accepted ==> f in s.accepted || f in Copied(s.prod))
            && (forall f :: f in Copied(n.prod) ==> f in Copied(s.prod))
  {
    hide Holds;
    if s.prod.Copying? && s.prod.i < |s.prod.data| { StoreKeepsInv(c, s); }
  }

  /** The host copies or publishes a completion. */
  lemma HostStores(c: Configs, s: System)
    requires SystemInv(c, s) && s.comp.prod.Copying?
    ensures SystemInv(c, s.(comp := ProduceStep(c.comp, s.comp)))
  {
    hide Inv, FrameInv, CmdPart, WellFormedFrame, SentFrames, SpacesTrue, ProduceStep;
    StepKeepsInv(c.comp, s.comp, Produce);
    StepKeepsFrames(c.comp, s.comp, Produce);
    StoreOrPublish(c.comp, s.comp);
  }

  /** The host tries to write the completion that is due. */
  lemma HostBegins(c: Configs, s: System, o: Outcomes)
    requires SystemInv(c, s) && s.comp.prod.Resting? && s.due != []
    ensures SystemInv(c, HostStep(c, s, o))
  {
    hide Inv, FrameInv, WellFormedFrame, DispatchInv, Due, After, BeginStep, SentFrames, SpacesTrue;
    var a := Answer(s.due[0], Space(c.comp, s.comp));
    var s' := HostStep(c, s, o);
    StepKeepsInv(c.comp, s.comp, Begin(s.due[0]));
    StepKeepsFrames(c.comp, s.comp, Begin(s.due[0]));
    assert Frames(s'.answers) == Frames(s.answers) + s.due;
    assert (Frames(s.answers) + s.due) + [] == Frames(s.answers) + s.due;
    BeginOrRefuse(c.comp, s.comp, s.due[0]);
    SpaceBound(c.comp, s.comp);
    assert s.comp.accepted + [] == s.comp.accepted;
    OneMoreAnswer(c.comp.size, s.answers, a);
  }

  lemma BeginOrRefuse(c: Config, s: Chan, data: seq<byte>)
    requires c.size > 0 && c.kind.Completions? && s.prod.Resting?
    ensures var n := BeginStep(c, s, data);
            && n.accepted == s.accepted
            && Copied(n.prod) == if Space(c, s) >= |data| then [data] else []
  {
  }

  lemma OneMoreAnswer(size: nat, answers: seq<Answer>, a: Answer)
    requires SpacesTrue(size, answers) && a.space >= size - 1 - |Flatten(SentFrames(answers))|
    ensures SpacesTrue(size, answers + [a])
    ensures SentFrames(answers + [a]) == SentFrames(answers) + (if Sent(a) then [a.frame] else [])
  {
    hide SentFrames;
    assert (answers + [a])[..|answers|] == answers;
    assert SentFrames(answers + [a]) == SentFrames(answers) + (if Sent(a) then [a.frame] else []) by {
      SentLast(answers + [a]);
    }
    forall k | 0 <= k < |answers + [a]|
      ensures (answers + [a])[k].space >= size - 1 - |Flatten(SentFrames((answers + [a])[..k]))|
    {
      if k < |answers| { assert (answers + [a])[..k] == answers[..k]; }
    }
  }

  lemma SentLast(answers: seq<Answer>)
    requires answers != []
    ensures var n := |answers| - 1;
            SentFrames(answers) == SentFrames(answers[..n]) + (if Sent(answers[n]) then [answers[n].frame] else [])
  {
  }

  lemma SpaceBound(c: Config, s: Chan)
    requires Inv(c, s)
    ensures Space(c, s) >= c.size - 1 - |Flatten(s.accepted)|
  {
    DistanceIsUnread(c, s);
  }

  /** A reader's step hands over nothing, or the frame it has copied whole, which the
      host's buffer now starts with. */
  lemma HandsOver(c: Config, s: System)
    requires Inv(c, s.cmd) && c.kind.Commands?
    ensures var cmd := ConsumeStep(c, s.cmd);
            || cmd.delivered == s.cmd.delivered
            || (exists f :: cmd.delivered == s.cmd.delivered + [f] && HEADER_SIZE <= |f| && f <= Buffered(s))
  {
    hide Holds, ReadHeader, Flatten;
  }

  /** The host reads, dispatches or consumes a command. */
  lemma HostReads(c: Configs, s: System, o: Outcomes)
    requires SystemInv(c, s) && s.comp.prod.Resting? && s.due == []
    ensures SystemInv(c, HostStep(c, s, o))
  {
    hide Inv, FrameInv, DispatchInv, SentFrames, Response, ConsumeStep, SpacesTrue, Due, After, Advance, Found,
         Buffered;
    var cmd, v := ConsumeStep(c.cmd, s.cmd), Service(Buffered(s), o);
    StepKeepsInv(c.cmd, s.cmd, Consume);
    StepKeepsDispatch(c.cmd, s.cmd, Consume);
    HandsOver(c.cmd, s);
    assert Frames(s.answers) + [] == Frames(s.answers);
    if cmd.delivered != s.cmd.delivered {
      ServeOneMore(Start(), s.served, v);
      ResponseFits(c.comp, v.buffer, Found(s.world, v.buffer));
    }
  }

  lemma ResponseFits(c: Config, b: HostBuffer, found: bool)
    requires c.bufSize >= 56
    ensures |Response(b, found)| <= 1 && forall r :: r in Response(b, found) ==> WellFormedFrame(c, r)
  {
    hide Le16, Le32;
    ResponseEchoes(b, found);
  }

  lemma SystemStepKeepsInv(c: Configs, s: System, e: Event)
    requires SystemInv(c, s)
    ensures SystemInv(c, SystemStep(c, s, e))
  {
    hide CmdPart, CompPart;
    match e
    case Submit(data) => GuestCmdStep(c, s, Begin(data));
    case GuestStores => GuestCmdStep(c, s, Produce);
    case GuestPolls => GuestPollStep(c, s);
    case HostRuns(o) =>
      if s.comp.prod.Copying? { HostStores(c, s); }
      else if s.due != [] { HostBegins(c, s, o); }
      else { HostReads(c, s, o); }
  }

  lemma {:induction false} SystemRunKeepsInv(c: Configs, s: System, events: seq<Event>)
    requires SystemInv(c, s)
    ensures SystemInv(c, SystemRun(c, s, events))
    decreases |events|
  {
    if events != [] {
      SystemStepKeepsInv(c, s, events[0]);
      SystemRunKeepsInv(c, SystemStep(c, s, events[0]), events[1..]);
    }
  }

  lemma SystemStartInv(c: Configs, junk: HostBuffer)
    requires ValidConfigs(c)
    ensures SystemInv(c, SystemStart(c, junk))
  {
    hide Inv, DispatchInv, FrameInv, WellFormedFrame;
    InitialInv(c.cmd);
    InitialInv(c.comp);
    InitialHistory(c.cmd);
    InitialHistory(c.comp);
  }

  lemma InitialHistory(c: Config)
    ensures DispatchInv(Channel.Initial(c)) && FrameInv(Channel.Initial(c))
  {
    InitialDispatch(c);
    EmptyStream();
  }

  // ---- results ----

  /** The commands dispatched and those a drain of the command ring would still dispatch are
      those found by splitting the guest's accepted bytes; with well-formed writes they are
      the writes. */
  ghost predicate ServesTheGuest(c: Config, cmd: Chan)
    requires c.size > 0 && |cmd.bytes| == c.size
  {
    && Splits(Flatten(cmd.accepted), cmd.delivered, Pending(c, cmd))
    && ((forall f :: f in cmd.accepted ==> WellFormedCommand(f)) ==>
          cmd.delivered + Drain(Pending(c, cmd)).frames == cmd.accepted)
  }

  lemma GuestIsServed(c: Config, cmd: Chan)
    requires Inv(c, cmd) && DispatchInv(cmd)
    ensures |cmd.bytes| == c.size > 0 && ServesTheGuest(c, cmd)
  {
    hide Inv, DispatchInv, Drain, Pending, Flatten, WellFormedCommand;
    PendingIsSplit(c, cmd);
    if forall f :: f in cmd.accepted ==> WellFormedCommand(f) { DrainWellFormed(cmd.accepted); }
  }

  /** In any interleaving, for any bytes the guest writes: the commands dispatched are those
      of the guest's accepted writes, each full frame served as the command it holds; the
      completions attempted are, in order, those due for the commands dispatched (less one
      about to be written), a commit getting one exactly when the tracker then knows its
      command buffer; the guest has read, in order, a prefix of the attempted ones that found
      space, and the rest of those, whole and in order, are the bytes left in the ring. */
  lemma CompletionsAnswerCommands(c: Configs, junk: HostBuffer, events: seq<Event>)
    requires ValidConfigs(c)
    ensures c.cmd.size > 0 && c.comp.size > 0
    ensures var s := SystemRun(c, SystemStart(c, junk), events);
            && |s.cmd.bytes| == c.cmd.size && ServesTheGuest(c.cmd, s.cmd)
            && InBuffers(s.cmd.delivered, s.served) && ServedAsSent(s.cmd.delivered, s.served)
            && s.world == After(Start(), s.served)
            && Frames(s.answers) + s.due == Due(Start(), s.served)
            && |s.due| <= 1
            && s.comp.delivered <= SentFrames(s.answers)
            && |s.comp.bytes| == c.comp.size
            && (s.comp.prod.Resting? ==>
                  Pending(c.comp, s.comp) == Flatten(SentFrames(s.answers)[|s.comp.delivered|..]))
  {
    hide Inv, Due, After, DispatchInv, Pending, Flatten, InBuffers, ServedAsSent, ServesTheGuest;
    SystemStartInv(c, junk);
    SystemRunKeepsInv(c, SystemStart(c, junk), events);
    var s := SystemRun(c, SystemStart(c, junk), events);
    GuestIsServed(c.cmd, s.cmd);
    FramesServedAsSent(s.cmd.delivered, s.served);
    assert s.comp.delivered <= s.comp.accepted;
    PendingFrames(c.comp, s.comp);
    assert s.comp.accepted + [] == s.comp.accepted;
  }

  /** The completions due along a run of the command processor. */
  ghost function RunDue(w: World, served: seq<Service>): seq<seq<byte>>
    requires OwnInv(w) && AllTyped(w, Jobs(served))
    decreases |served|
  {
    if served == [] then []
    else
      var b, job := served[0].buffer, JobOf(served[0]);
      JobsRest(served);
      StepKeepsOwned(w, job.command, job.outcomes);
      Response(b, CommitFinds(w.tracker, Le32(b, 16)))
        + RunDue(Processor.Step(w, job.command, job.outcomes), served[1..])
  }

  lemma JobsRest(served: seq<Service>)
    requires served != []
    ensures Jobs(served) != [] && Jobs(served)[0] == JobOf(served[0]) && Jobs(served)[1..] == Jobs(served[1..])
  {
  }

  lemma {:induction false} TypedRunIsTheProcessors(w: World, served: seq<Service>)
    requires OwnInv(w) && AllTyped(w, Jobs(served))
    ensures After(w, served) == Ownership.Run(w, Jobs(served))
    ensures Due(w, served) == RunDue(w, served)
    decreases |served|
  {
    hide OwnInv, KindsMatch, Typed, Processor.Step, Response, CommitFinds, JobOf;
    if served != [] {
      var job := JobOf(served[0]);
      JobsRest(served);
      Unfold(w);
      StepKeepsOwned(w, job.command, job.outcomes);
      AdvanceIsStep(w, served[0]);
      TypedRunIsTheProcessors(Advance(w, served[0]), served[1..]);
    }
  }

  lemma AdvanceIsStep(w: World, v: Service)
    requires Sized(w.tracker) && KindsMatch(w.tracker) && Typed(w.tracker, JobOf(v).command)
    ensures Advance(w, v) == Processor.Step(w, JobOf(v).command, JobOf(v).outcomes)
  {
    hide Processor.Step;
  }

  /** The whole system, from the guest's writes through both rings in any interleaving: the
      host is where the command processor is after the commands decoded from the frames it
      took off the ring, each full frame by itself, and the completions are those due along
      that run. When all accepted writes are well-formed the frames are the first of them. */
  lemma CompletionsFollowTheProcessor(c: Configs, junk: HostBuffer, events: seq<Event>)
    requires ValidConfigs(c) && c.cmd.size > 0 && c.comp.size > 0
    requires OwnInv(Start()) && AllTyped(Start(), Jobs(SystemRun(c, SystemStart(c, junk), events).served))
    ensures var s := SystemRun(c, SystemStart(c, junk), events);
            && s.world == Ownership.Run(Start(), Jobs(s.served))
            && Frames(s.answers) + s.due == RunDue(Start(), s.served)
            && |s.cmd.bytes| == c.cmd.size && ServesTheGuest(c.cmd, s.cmd)
            && InBuffers(s.cmd.delivered, s.served) && ServedAsSent(s.cmd.delivered, s.served)
            && ((forall f :: f in s.cmd.accepted ==> WellFormedCommand(f)) ==> s.cmd.delivered <= s.cmd.accepted)
  {
    hide OwnInv, AllTyped, SystemRun, After, Due, RunDue, Ownership.Run, Pending, InBuffers, ServedAsSent, Splits,
         Drain, WellFormedCommand;
    CompletionsAnswerCommands(c, junk, events);
    TypedRunIsTheProcessors(Start(), SystemRun(c, SystemStart(c, junk), events).served);
  }

  /** The completions due for the commands served when a commit's handle is looked up in the
      map of the guest's creations and DESTROY commands before it. */
  function MapDue(m: map<u32, Tracker.Kind>, served: seq<Service>): seq<seq<byte>>
    decreases |served|
  {
    if served == [] then []
    else
      var b, h := served[0].buffer, Le32(served[0].buffer, 16);
      Response(b, h in m && m[h] == CmdBuf)
        + MapDue(TrackerRuns.MapRun(m, OpsOf(JobOf(served[0]))), served[1..])
  }

  lemma {:induction false} DueByMap(w: World, m: map<u32, Tracker.Kind>, served: seq<Service>)
    requires OwnInv(w) && AllTyped(w, Jobs(served)) && HandlesAgree(w, m, Jobs(served))
    ensures RunDue(w, served) == MapDue(m, served)
    decreases |served|
  {
    hide OwnInv, KindsMatch, Typed, Processor.Step, Response, CommitFinds, JobOf, OpsOf, TrackerRuns.MapRun,
         TrackerRuns.Agrees;
    if served != [] {
      var job := JobOf(served[0]);
      JobsRest(served);
      Unfold(w);
      StepKeepsOwned(w, job.command, job.outcomes);
      CommitFindsByMap(w.tracker, m, Le32(served[0].buffer, 16));
      DueByMap(Processor.Step(w, job.command, job.outcomes), TrackerRuns.MapRun(m, OpsOf(job)), served[1..]);
    }
  }

  /** In smooth runs which commits get a completion can be read off the commands alone: those
      of handles created as command buffers before, and not removed since. */
  lemma CompletionsFollowTheHandles(c: Configs, junk: HostBuffer, events: seq<Event>)
    requires ValidConfigs(c) && c.cmd.size > 0 && c.comp.size > 0
    requires TrackerRuns.PoolOk(Tracker.Initial()) && OwnInv(Start())
    requires var jobs := Jobs(SystemRun(c, SystemStart(c, junk), events).served);
             AllTyped(Start(), jobs) && TrackerRuns.SmoothRun(Tracker.Initial(), AllOps(jobs))
    ensures var s := SystemRun(c, SystemStart(c, junk), events);
            Frames(s.answers) + s.due == MapDue(map[], s.served)
  {
    hide OwnInv, AllTyped, SystemRun, After, Due, RunDue, MapDue, Ownership.Run, Pending, InBuffers, ServedAsSent,
         Splits, Drain, HandlesAgree, TrackerRuns.SmoothRun, TrackerRuns.PoolOk;
    var served := SystemRun(c, SystemStart(c, junk), events).served;
    CompletionsFollowTheProcessor(c, junk, events);
    HandlesAgreeExactly(Jobs(served));
    DueByMap(Start(), map[], served);
  }

  /** Full, well-formed writes: the processor has run the commands they hold, in the order
      they were written. */
  lemma ProcessorRunsFullFrames(c: Configs, junk: HostBuffer, events: seq<Event>)
    requires ValidConfigs(c) && c.cmd.size > 0 && c.comp.size > 0
    requires var s := SystemRun(c, SystemStart(c, junk), events);
             forall k :: 0 <= k < |s.cmd.accepted| ==>
               WellFormedCommand(s.cmd.accepted[k]) && FullFrame(s.cmd.accepted[k])
    ensures var s := SystemRun(c, SystemStart(c, junk), events);
            && |s.served| <= |s.cmd.accepted|
            && forall k :: 0 <= k < |s.served| ==>
                 JobOf(s.served[k]).command == DecodeFrame(s.cmd.accepted[k])
  {
    hide SystemRun, After, Due, Pending, Splits, Drain, Extent, DecodeFrame, JobOf;
    CompletionsAnswerCommands(c, junk, events);
    var s := SystemRun(c, SystemStart(c, junk), events);
    assert s.cmd.delivered <= s.cmd.accepted;
    forall k | 0 <= k < |s.served|
      ensures |s.cmd.accepted[k]| <= HOST_BUFFER && JobOf(s.served[k]).command == DecodeFrame(s.cmd.accepted[k])
    {
      assert s.cmd.delivered[k] == s.cmd.accepted[k];
    }
  }

  /** The guest writes command structs: the processor has run what the structs ask for, in
      the order they were written. */
  lemma ProcessorRunsWhatWasWritten(c: Configs, junk: HostBuffer, events: seq<Event>,
                                    sent: seq<Written>, seqs: seq<u32>)
    requires ValidConfigs(c) && c.cmd.size > 0 && c.comp.size > 0
    requires var s := SystemRun(c, SystemStart(c, junk), events);
             && |sent| == |seqs| == |s.cmd.accepted|
             && forall k :: 0 <= k < |sent| ==> Fits(sent[k]) && s.cmd.accepted[k] == Encode(sent[k], seqs[k])
    ensures var s := SystemRun(c, SystemStart(c, junk), events);
            && |s.served| <= |sent|
            && forall k :: 0 <= k < |s.served| ==> JobOf(s.served[k]).command == Meaning(sent[k])
  {
    hide SystemRun, After, Due, Pending, Splits, Drain, WellFormedCommand, Encode, Fits, Meaning, Decode;
    CompletionsAnswerCommands(c, junk, events);
    var s := SystemRun(c, SystemStart(c, junk), events);
    forall k | 0 <= k < |sent| ensures WellFormedCommand(s.cmd.accepted[k]) { EncodedIsWellFormed(sent[k], seqs[k]); }
    assert s.cmd.delivered <= s.cmd.accepted;
    forall k | 0 <= k < |s.served| ensures JobOf(s.served[k]).command == Meaning(sent[k]) {
      assert s.cmd.delivered[k] == s.cmd.accepted[k];
      EncodedDecodes(sent[k], seqs[k], s.served[k].buffer);
    }
  }

  /** The bytes left in the ring are the accepted frames not yet handed over. */
  lemma PendingFrames(c: Config, s: Chan)
    requires Inv(c, s) && FrameInv(s)
    ensures |s.bytes| == c.size && Pending(c, s) == Flatten(s.accepted[|s.delivered|..])
  {
    hide Holds;
    FramePosition(s);
    UnreadIsStream(c, s);
    if s.cons.Releasing? {
      assert Stream(s)[s.taken..][s.cons.count..] == Stream(s)[Cursor(s)..];
    }
  }

  lemma {:induction false} AllSent(answers: seq<Answer>)
    requires forall k :: 0 <= k < |answers| ==> Sent(answers[k])
    ensures SentFrames(answers) == Frames(answers)
  {
    if answers != [] {
      AllSent(answers[..|answers| - 1]);
      assert Frames(answers) == Frames(answers[..|answers| - 1]) + [answers[|answers| - 1].frame];
    }
  }

  /** With enough space, here when all completions ever due fit the ring together, none is
      missing: what the guest reads are the completions of its requests, one each. */
  lemma NothingMissingWithSpace(c: Configs, junk: HostBuffer, events: seq<Event>)
    requires ValidConfigs(c) && c.cmd.size > 0 && c.comp.size > 0
    requires var s := SystemRun(c, SystemStart(c, junk), events);
             |Flatten(Frames(s.answers))| < c.comp.size
    ensures var s := SystemRun(c, SystemStart(c, junk), events);
            && (forall k :: 0 <= k < |s.answers| ==> Sent(s.answers[k]))
            && s.comp.delivered <= Frames(s.answers)
  {
    hide Inv, Due, After, DispatchInv;
    SystemStartInv(c, junk);
    SystemRunKeepsInv(c, SystemStart(c, junk), events);
    var s := SystemRun(c, SystemStart(c, junk), events);
    SmallAnswersAreSent(c.comp.size, s.answers);
    AllSent(s.answers);
  }

  lemma {:induction false} SmallAnswersAreSent(size: nat, answers: seq<Answer>)
    requires |Flatten(Frames(answers))| < size
    requires SpacesTrue(size, answers)
    ensures forall k :: 0 <= k < |answers| ==> Sent(answers[k])
  {
    hide Flatten, SentFrames;
    if answers != [] {
      var n := |answers| - 1;
      var front := answers[..n];
      assert Frames(answers) == Frames(front) + [answers[n].frame];
      OneMore(Frames(front), answers[n].frame);
      assert SpacesTrue(size, front) by {
        forall k | 0 <= k < n ensures front[k].space >= size - 1 - |Flatten(SentFrames(front[..k]))| {
          assert answers[..k] == front[..k];
        }
      }
      SmallAnswersAreSent(size, front);
      AllSent(front);
    }
  }

  lemma FirstReadIsFirstDue(c: Configs, junk: HostBuffer, events: seq<Event>)
    requires ValidConfigs(c) && c.cmd.size > 0 && c.comp.size > 56
    requires var s := SystemRun(c, SystemStart(c, junk), events);
             && s.cmd.delivered != [] && s.comp.delivered != []
             && |s.cmd.delivered[0]| >= HEADER_SIZE
             && ReadHeader(s.cmd.delivered[0]).opcode == CMD_HELLO
    ensures var s := SystemRun(c, SystemStart(c, junk), events);
            s.comp.delivered[0] == HelloResponse(ReadHeader(s.cmd.delivered[0]).sequence)
  {
    hide Inv, DispatchInv, HelloResponse, ReadHeader, Flatten, Due, After;
    SystemStartInv(c, junk);
    SystemRunKeepsInv(c, SystemStart(c, junk), events);
    var s := SystemRun(c, SystemStart(c, junk), events);
    DueFirst(Start(), s.served);
    HeaderOfPrefix(s.cmd.delivered[0], s.served[0].buffer);
    assert s.comp.delivered <= SentFrames(s.answers);
    if s.answers != [] {
      assert s.answers[..0] == [];
      EmptyStream();
      assert (Frames(s.answers) + s.due)[0] == s.answers[0].frame;
      FirstSent(s.answers);
    }
  }

  /** The handshake: if the first command dispatched is HELLO and the completion ring can
      hold the answer at all, the first completion the guest reads is that answer, with
      every field the guest looks at. */
  lemma HelloIsAnsweredFirst(c: Configs, junk: HostBuffer, events: seq<Event>)
    requires ValidConfigs(c) && c.cmd.size > 0 && c.comp.size > 56
    requires var s := SystemRun(c, SystemStart(c, junk), events);
             && s.cmd.delivered != [] && s.comp.delivered != []
             && |s.cmd.delivered[0]| >= HEADER_SIZE
             && Le16(s.cmd.delivered[0], 0) == 0x0001
    ensures var s := SystemRun(c, SystemStart(c, junk), events);
            SaysHello(s.comp.delivered[0], Le32(s.cmd.delivered[0], 8))
  {
    hide SystemRun, SaysHello, HelloResponse, ReadHeader, Le16, Le32;
    var s := SystemRun(c, SystemStart(c, junk), events);
    FieldsOf(s.cmd.delivered[0]);
    FirstReadIsFirstDue(c, junk, events);
    HelloReads(Le32(s.cmd.delivered[0], 8));
  }

  lemma DueFirst(w: World, served: seq<Service>)
    requires served != []
    ensures Response(served[0].buffer, Found(w, served[0].buffer)) <= Due(w, served)
  {
    hide Response, Found, Advance;
  }

  lemma {:induction false} FirstSent(answers: seq<Answer>)
    requires answers != [] && Sent(answers[0])
    ensures SentFrames(answers) != [] && SentFrames(answers)[0] == answers[0].frame
  {
    if |answers| == 1 {
      assert answers[..0] == [];
    } else {
      FirstSent(answers[..|answers| - 1]);
    }
  }
}
