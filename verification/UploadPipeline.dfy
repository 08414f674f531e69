/** The multipart upload of drivers/115/util.go as a machine: a dispatcher with memory
    tokens, two readers, one waiter channel per chunk, an order-keeping scheduler, one writer
    and a collector. A step is one channel operation, one read or one upload attempt. */
module UploadPipeline {
  import opened Basics
  import opened FileSplit

  const QUEUE_MAX := 10
  const READERS := 2
  const RETRIES := 3
  const ERR_CAP := 5

  /** The chunks to upload, and what the temporary file holds. */
  datatype Config = Config(chunks: seq<FileChunk>, file: seq<Byte>)

  datatype ChunkData = ChunkData(index: nat, bytes: seq<Byte>)

  datatype Part = Part(number: int, etag: nat)

  /** A part the server has accepted, with the bytes it received. */
  datatype Upload = Upload(part: Part, bytes: seq<Byte>)

  datatype Dispatcher = Acquire | Send | Stopped(held: bool)
  datatype Reader = Idle | Reading(i: nat, tries: nat) | Loaded(d: ChunkData) | ReaderGone
  datatype Scheduler = Want(i: nat) | Have(d: ChunkData) | SchedStopped(i: nat)
  datatype Writer = Ready | Uploading(d: ChunkData, tries: nat) | Uploaded(part: Part) | Releasing | WriterGone(sent: bool)
  datatype Collector = Listening | Holding(part: Part) | Counting
  datatype Main = Looping | Completing | Completed(parts: seq<Part>) | Failed

  /** `next` jobs are sent; `tokens` is the fill of activeChunksLimit, `errs` that of errCh,
      `wg` the WaitGroup; `server` is what the object store has accepted so far. */
  datatype State = State(
    disp: Dispatcher, next: nat, tokens: nat, readers: seq<Reader>, waiters: seq<Option<ChunkData>>,
    sched: Scheduler, writer: Writer, coll: Collector, parts: seq<Part>, wg: int, errs: nat,
    cancelled: bool, main: Main, server: seq<Upload>)

  function N(c: Config): nat { |c.chunks| }

  function Zeros(n: nat): seq<Byte> { seq(n, _ => 0) }

  /** ReadAt into a zeroed buffer; reaching the end of the file counts as success. */
  function ReadAt(file: seq<Byte>, off: int, size: int): seq<Byte> {
    if size < 0 then []
    else if off < 0 || off >= |file| then Zeros(size)
    else if off + size <= |file| then file[off..off + size]
    else file[off..] + Zeros(off + size - |file|)
  }

  /** The right data for chunk `i`. */
  function Good(c: Config, i: nat): ChunkData
    requires i < N(c)
  {
    ChunkData(i, ReadAt(c.file, c.chunks[i].offset, c.chunks[i].size))
  }

  function Start(c: Config): State {
    State(Acquire, 0, 0, seq(READERS, _ => Idle), seq(N(c), _ => None), Want(0), Ready, Listening, [], N(c), 0,
          false, Looping, [])
  }

  datatype Label =
    | TakeToken
    | SendJob(r: nat)
    | ReadOk(r: nat)
    | ReadFails(r: nat)
    | Put(r: nat)
    | Pick
    | Hand
    | UploadOk(etag: nat)
    | UploadFails
    | SendPart
    | Append
    | CountDown
    | Release
    | Quit
    | Complete(ok: bool)
    | MainError
    | MainStops
    | Cancel
    | StopDispatcher
    | StopReader(r: nat)
    | StopScheduler
    | StopWriter

  predicate Enabled(c: Config, s: State, l: Label) {
    match l
    case TakeToken => s.disp.Acquire? && s.next < N(c) && s.tokens < QUEUE_MAX
    case SendJob(r) => s.disp.Send? && r < |s.readers| && s.readers[r].Idle?
    case ReadOk(r) => r < |s.readers| && s.readers[r].Reading? && s.readers[r].i < N(c)
    case ReadFails(r) => r < |s.readers| && s.readers[r].Reading? && (s.readers[r].tries + 1 < RETRIES || s.errs < ERR_CAP)
    case Put(r) =>
      && r < |s.readers| && s.readers[r].Loaded?
      && s.readers[r].d.index < |s.waiters| && s.waiters[s.readers[r].d.index].None?
    case Pick => s.sched.Want? && s.sched.i < |s.waiters| && s.waiters[s.sched.i].Some?
    case Hand => s.sched.Have? && s.writer.Ready?
    case UploadOk(_) => s.writer.Uploading? && s.writer.d.index < N(c)
    case UploadFails => s.writer.Uploading? && (s.writer.tries + 1 < RETRIES || s.errs < ERR_CAP)
    case SendPart => s.writer.Uploaded? && s.coll.Listening?
    case Append => s.coll.Holding?
    case CountDown => s.coll.Counting?
    case Release => s.writer.Releasing? && s.tokens > 0
    case Quit => s.main.Looping? && s.wg == 0
    case Complete(_) => s.main.Completing?
    case MainError => s.main.Looping? && s.errs > 0
    case MainStops => s.main.Looping?
    case Cancel => !s.cancelled
    case StopDispatcher => s.cancelled && (s.disp.Send? || (s.disp.Acquire? && s.next < N(c)))
    case StopReader(r) => s.cancelled && r < |s.readers| && s.readers[r].Reading?
    case StopScheduler => s.cancelled && (s.sched.Have? || (s.sched.Want? && s.sched.i < N(c)))
    case StopWriter => s.cancelled && (s.writer.Uploading? || s.writer.Uploaded?)
  }

  function SetReader(s: State, r: nat, x: Reader): State
    requires r < |s.readers|
  {
    s.(readers := s.readers[r := x])
  }

  function Step(c: Config, s: State, l: Label): State
    requires Enabled(c, s, l)
  {
    match l
    case TakeToken => s.(disp := Send, tokens := s.tokens + 1)
    case SendJob(r) => SetReader(s, r, Reading(s.next, 0)).(disp := Acquire, next := s.next + 1)
    case ReadOk(r) => SetReader(s, r, Loaded(Good(c, s.readers[r].i)))
    case ReadFails(r) =>
      if s.readers[r].tries + 1 < RETRIES then SetReader(s, r, Reading(s.readers[r].i, s.readers[r].tries + 1))
      else SetReader(s, r, ReaderGone).(errs := s.errs + 1)
    case Put(r) =>
      var d := s.readers[r].d;
      SetReader(s, r, Idle).(waiters := s.waiters[d.index := Some(d)])
    case Pick =>
      s.(sched := Have(s.waiters[s.sched.i].value), waiters := s.waiters[s.sched.i := None])
    case Hand => s.(sched := Want(s.sched.d.index + 1), writer := Uploading(s.sched.d, 0))
    case UploadOk(etag) =>
      var part := Part(c.chunks[s.writer.d.index].number, etag);
      s.(writer := Uploaded(part), server := s.server + [Upload(part, s.writer.d.bytes)])
    case UploadFails =>
      if s.writer.tries + 1 < RETRIES then s.(writer := Uploading(s.writer.d, s.writer.tries + 1))
      else s.(writer := WriterGone(false), errs := s.errs + 1)
    case SendPart => s.(coll := Holding(s.writer.part), writer := Releasing)
    case Append => s.(parts := s.parts + [s.coll.part], coll := Counting)
    case CountDown => s.(wg := s.wg - 1, coll := Listening)
    case Release => s.(tokens := s.tokens - 1, writer := Ready)
    case Quit => s.(main := Completing)
    case Complete(ok) => s.(main := if ok then Completed(s.parts) else Failed)
    case MainError => s.(errs := s.errs - 1, main := Failed, cancelled := true)
    case MainStops => s.(main := Failed, cancelled := true)
    case Cancel => s.(cancelled := true)
    case StopDispatcher => s.(disp := Stopped(s.disp.Send?))
    case StopReader(r) => SetReader(s, r, ReaderGone)
    case StopScheduler => s.(sched := SchedStopped(if s.sched.Have? then s.sched.d.index else s.sched.i))
    case StopWriter => s.(writer := WriterGone(s.writer.Uploaded?))
  }
}
