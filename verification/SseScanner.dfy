/**
  Sniffing token usage out of a passing event stream.

  The stream arrives in chunks that may end anywhere. The scanner keeps an unparsed remainder
  and consumes an event whenever it finds a blank line (LF LF; section 9.2.5 of the WHATWG
  HTML Standard also allows CR forms, which the scanner does not look for). Decoding JSON is a
  parameter.
 */
module SseScanner {
  import opened Options
  import opened Sequences

  newtype Byte = x: int | 0 <= x < 256

  type Bytes = seq<Byte>

  const LF: Byte := 10

  // "data:", "\"usage\"" and "[DONE]"
  const DATA: Bytes := [100, 97, 116, 97, 58]
  const USAGE: Bytes := [34, 117, 115, 97, 103, 101, 34]
  const DONE: Bytes := [91, 68, 79, 78, 69, 93]

  type Usage = map<string, Option<int>>
  type Totals = Option<map<string, int>>

  /** What json.loads may return, as far as the scanner looks. */
  datatype Message = Missing | NotADict | Dict(usage: Option<Usage>)
  datatype Json = Invalid | Other | Object(usage: Option<Usage>, message: Message)

  type Decoder = Bytes -> Json

  // ---- Byte strings -------------------------------------------------------------------------

  predicate Space(b: Byte) { b == 32 || 9 <= b <= 13 }

  function StripLeft(s: Bytes): Bytes {
    if s != [] && Space(s[0]) then StripLeft(s[1..]) else s
  }

  function StripRight(s: Bytes): Bytes {
    if s != [] && Space(s[|s| - 1]) then StripRight(s[..|s| - 1]) else s
  }

  function Strip(s: Bytes): Bytes { StripRight(StripLeft(s)) }

  predicate Occurs(sub: Bytes, s: Bytes, i: nat) { i + |sub| <= |s| && s[i..i + |sub|] == sub }

  predicate Contains(s: Bytes, sub: Bytes) { exists i: nat :: i <= |s| && Occurs(sub, s, i) }

  /** s.split(b"\n"), the lines from the i-th byte on, the first of which has begun with `line`. */
  function Lines(s: Bytes, i: nat, line: Bytes): seq<Bytes>
    requires i <= |s|
    decreases |s| - i
  {
    if i == |s| then [line]
    else if s[i] == LF then [line] + Lines(s, i + 1, [])
    else Lines(s, i + 1, line + [s[i]])
  }

  predicate BlankAt(s: Bytes, i: int) { 0 <= i && i + 1 < |s| && s[i] == LF && s[i + 1] == LF }

  /** Where the first LF LF from i on begins. */
  function FirstBlank(s: Bytes, i: nat): (r: Option<nat>)
    requires i <= |s|
    ensures r.None? ==> forall j :: i <= j ==> !BlankAt(s, j)
    ensures r.Some? ==> i <= r.value && BlankAt(s, r.value) && forall j :: i <= j < r.value ==> !BlankAt(s, j)
    decreases |s| - i
  {
    if i + 1 >= |s| then None
    else if BlankAt(s, i) then Some(i)
    else FirstBlank(s, i + 1)
  }

  lemma FirstBlankIs(s: Bytes, i: nat)
    requires BlankAt(s, i) && forall j :: 0 <= j < i ==> !BlankAt(s, j)
    ensures FirstBlank(s, 0) == Some(i)
  {
    assert BlankAt(s, i);
  }

  lemma NoBlankIs(s: Bytes)
    requires forall j :: 0 <= j ==> !BlankAt(s, j)
    ensures FirstBlank(s, 0).None?
  {
  }

  // ---- One line -------------------------------------------------------------------------------

  /** What a line says about usage. Asking the usage of a message that is no dict raises. */
  datatype Report = Nothing | Raises | Reports(first: Option<Usage>, second: Option<Usage>)

  function Read(decode: Decoder, raw: Bytes): Report {
    var line := Strip(raw);
    if !(DATA <= line) || !Contains(line, USAGE) then Nothing
    else
      var data := Strip(line[|DATA|..]);
      if data == [] || data == DONE then Nothing
      else
        match decode(data)
        case Object(usage, message) =>
          if message.NotADict? then Raises
          else Reports(usage, if message.Dict? then message.usage else None)
        case _ => Nothing
  }

  function NonNull(u: Usage): map<string, int> { map k | k in u && u[k].Some? :: u[k].value }

  function Merged(t: Totals, u: Option<Usage>): Totals {
    if u.None? then t
    else Some((if t.Some? then t.value else map[]) + NonNull(u.value))
  }

  // ---- Scanning as a function -------------------------------------------------------------------

  datatype Scan = Going(totals: Totals, rest: Bytes) | Raised(totals: Totals)

  function ReadLines(decode: Decoder, lines: seq<Bytes>, i: nat, t: Totals): Scan
    requires i <= |lines|
    decreases |lines| - i
  {
    if i == |lines| then Going(t, [])
    else match Read(decode, lines[i])
         case Nothing => ReadLines(decode, lines, i + 1, t)
         case Raises => Raised(t)
         case Reports(a, b) => ReadLines(decode, lines, i + 1, Merged(Merged(t, a), b))
  }

  function ReadEvent(decode: Decoder, event: Bytes, t: Totals): Scan {
    ReadLines(decode, Lines(event, 0, []), 0, t)
  }

  /** One scan: every event the buffer completes, in order. */
  function ScanAll(decode: Decoder, buffer: Bytes, t: Totals): Scan
    decreases |buffer|
  {
    match FirstBlank(buffer, 0)
    case None => Going(t, buffer)
    case Some(i) =>
      match ReadEvent(decode, buffer[..i], t)
      case Raised(u) => Raised(u)
      case Going(u, _) => ScanAll(decode, buffer[i + 2..], u)
  }

  /** The chunks from the i-th on, one scan after each. */
  function ScanChunks(decode: Decoder, buffer: Bytes, chunks: seq<Bytes>, i: nat, t: Totals): Scan
    requires i <= |chunks|
    decreases |chunks| - i
  {
    if i == |chunks| then Going(t, buffer)
    else match ScanAll(decode, buffer + chunks[i], t)
         case Raised(u) => Raised(u)
         case Going(u, rest) => ScanChunks(decode, rest, chunks, i + 1, u)
  }

  // ---- The loops --------------------------------------------------------------------------------

  class Captured {
    var usage: Totals

    constructor ()
      ensures usage == None
    {
      usage := None;
    }
  }

  method ScanSseForUsage(decode: Decoder, buffer: Bytes, captured: Captured) returns (rest: Bytes, raised: bool)
    modifies captured
    ensures match ScanAll(decode, buffer, old(captured.usage))
            case Going(t, r) => !raised && rest == r && captured.usage == t
            case Raised(t) => raised && captured.usage == t
  {
    rest, raised := buffer, false;
    var blank := FirstBlank(rest, 0);
    while blank.Some?
      invariant blank == FirstBlank(rest, 0)
      invariant ScanAll(decode, rest, captured.usage) == ScanAll(decode, buffer, old(captured.usage))
      decreases |rest|
    {
      var event := rest[..blank.value];
      ghost var was := captured.usage;
      rest := rest[blank.value + 2..];
      var lines := Lines(event, 0, []);
      for i := 0 to |lines|
        invariant ReadLines(decode, lines, i, captured.usage) == ReadEvent(decode, event, was)
      {
        var line := Strip(lines[i]);
        if !(DATA <= line) { continue; }
        if !Contains(line, USAGE) { continue; }
        var data := Strip(line[|DATA|..]);
        if data == [] || data == DONE { continue; }
        var obj := decode(data);
        if !obj.Object? { continue; }
        if obj.message.NotADict? {
          return rest, true;
        }
        var us := [obj.usage, if obj.message.Dict? then obj.message.usage else None];
        ghost var before := captured.usage;
        for n := 0 to 2
          invariant captured.usage == if n == 0 then before
                                      else if n == 1 then Merged(before, us[0])
                                      else Merged(Merged(before, us[0]), us[1])
        {
          if us[n].Some? {
            var merged := if captured.usage.Some? then captured.usage.value else map[];
            merged := merged + (map k | k in us[n].value && us[n].value[k].Some? :: us[n].value[k].value);
            captured.usage := Some(merged);
          }
        }
      }
      blank := FirstBlank(rest, 0);
    }
  }

  method EventStream(decode: Decoder, chunks: seq<Bytes>, captured: Captured) returns (rest: Bytes, raised: bool)
    requires captured.usage == None
    modifies captured
    ensures match ScanAll(decode, Concat(chunks), None)
            case Going(t, r) => !raised && rest == r && captured.usage == t
            case Raised(t) => raised && captured.usage == t
  {
    ChunkingIsInvisible(decode, chunks);
    rest, raised := [], false;
    for i := 0 to |chunks|
      invariant ScanChunks(decode, rest, chunks, i, captured.usage) == ScanChunks(decode, [], chunks, 0, None)
    {
      rest := rest + chunks[i];
      rest, raised := ScanSseForUsage(decode, rest, captured);
      if raised {
        return;
      }
    }
  }

  // ---- Where chunks end does not matter ------------------------------------------------------------

  function Concat(chunks: seq<Bytes>): Bytes {
    if chunks == [] then [] else chunks[0] + Concat(chunks[1..])
  }

  /** Scanning a buffer and then more of the stream is scanning both at once. */
  lemma {:induction false} ScanThenMore(decode: Decoder, buffer: Bytes, more: Bytes, t: Totals)
    ensures ScanAll(decode, buffer + more, t)
         == match ScanAll(decode, buffer, t)
            case Raised(u) => Raised(u)
            case Going(u, rest) => ScanAll(decode, rest + more, u)
    decreases |buffer|
  {
    var first := FirstBlank(buffer, 0);
    if first.Some? {
      var i := first.value;
      var all := buffer + more;
      assert forall j :: 0 <= j <= i ==> BlankAt(all, j) == BlankAt(buffer, j);
      FirstBlankIs(all, i);
      assert all[..i] == buffer[..i] && all[i + 2..] == buffer[i + 2..] + more;
      match ReadEvent(decode, buffer[..i], t)
      case Raised(_) =>
      case Going(u, _) => ScanThenMore(decode, buffer[i + 2..], more, u);
    }
  }

  lemma {:induction false} ChunksAreOneScan(decode: Decoder, buffer: Bytes, chunks: seq<Bytes>, i: nat, t: Totals)
    requires i <= |chunks| && FirstBlank(buffer, 0).None?
    ensures ScanChunks(decode, buffer, chunks, i, t) == ScanAll(decode, buffer + Concat(chunks[i..]), t)
    decreases |chunks| - i
  {
    if i == |chunks| {
      assert buffer + Concat(chunks[i..]) == buffer;
    } else {
      var now := buffer + chunks[i];
      var more := Concat(chunks[i + 1..]);
      assert chunks[i..][1..] == chunks[i + 1..];
      assert buffer + Concat(chunks[i..]) == now + more;
      ScanThenMore(decode, now, more, t);
      RestHasNoBlank(decode, now, t);
      match ScanAll(decode, now, t)
      case Raised(_) =>
      case Going(u, rest) => ChunksAreOneScan(decode, rest, chunks, i + 1, u);
    }
  }

  lemma {:induction false} RestHasNoBlank(decode: Decoder, buffer: Bytes, t: Totals)
    ensures var s := ScanAll(decode, buffer, t); s.Going? ==> FirstBlank(s.rest, 0).None?
    decreases |buffer|
  {
    var first := FirstBlank(buffer, 0);
    if first.Some? {
      match ReadEvent(decode, buffer[..first.value], t)
      case Raised(_) =>
      case Going(u, _) => RestHasNoBlank(decode, buffer[first.value + 2..], u);
    }
  }

  /** However a stream is cut into chunks, the totals, the remainder and whether the scan
      raised are those of one scan of the whole. */
  lemma ChunkingIsInvisible(decode: Decoder, chunks: seq<Bytes>)
    ensures ScanChunks(decode, [], chunks, 0, None) == ScanAll(decode, Concat(chunks), None)
  {
    ChunksAreOneScan(decode, [], chunks, 0, None);
    assert chunks[0..] == chunks && [] + Concat(chunks) == Concat(chunks);
  }

  // ---- What the events of a stream are ----------------------------------------------------------------

  function Events(buffer: Bytes): seq<Bytes>
    decreases |buffer|
  {
    match FirstBlank(buffer, 0)
    case None => []
    case Some(i) => [buffer[..i]] + Events(buffer[i + 2..])
  }

  function Remainder(buffer: Bytes): Bytes
    decreases |buffer|
  {
    match FirstBlank(buffer, 0)
    case None => buffer
    case Some(i) => Remainder(buffer[i + 2..])
  }

  function Joined(events: seq<Bytes>): Bytes {
    if events == [] then [] else events[0] + [LF, LF] + Joined(events[1..])
  }

  /** An event contains no blank line and does not end in LF; a remainder has no blank line. */
  ghost predicate IsEvent(e: Bytes) {
    (forall j :: 0 <= j ==> !BlankAt(e, j)) && (e != [] ==> e[|e| - 1] != LF)
  }

  ghost predicate IsRemainder(r: Bytes) { forall j :: 0 <= j ==> !BlankAt(r, j) }

  lemma {:induction false} EventsRejoin(buffer: Bytes)
    ensures Joined(Events(buffer)) + Remainder(buffer) == buffer
    decreases |buffer|
  {
    var first := FirstBlank(buffer, 0);
    if first.Some? {
      var e, more := buffer[..first.value], buffer[first.value + 2..];
      EventsRejoin(more);
      assert Events(buffer)[1..] == Events(more);
      assert buffer == e + [LF, LF] + more;
      Reassociate(e + [LF, LF], Joined(Events(more)), Remainder(buffer));
    }
  }

  lemma {:induction false} EventsAreEvents(buffer: Bytes, e: Bytes)
    ensures IsRemainder(Remainder(buffer)) && (e in Events(buffer) ==> IsEvent(e))
    decreases |buffer|
  {
    var first := FirstBlank(buffer, 0);
    if first.Some? {
      FirstIsEvent(buffer, first.value);
      EventsAreEvents(buffer[first.value + 2..], e);
    }
  }

  /** Events and remainder decompose the stream. */
  lemma EventsDecompose(buffer: Bytes)
    ensures Joined(Events(buffer)) + Remainder(buffer) == buffer
    ensures (forall e :: e in Events(buffer) ==> IsEvent(e)) && IsRemainder(Remainder(buffer))
  {
    EventsRejoin(buffer);
    forall e ensures IsRemainder(Remainder(buffer)) && (e in Events(buffer) ==> IsEvent(e)) {
      EventsAreEvents(buffer, e);
    }
  }

  lemma FirstIsEvent(buffer: Bytes, i: nat)
    requires FirstBlank(buffer, 0) == Some(i)
    ensures IsEvent(buffer[..i])
  {
    var e := buffer[..i];
    forall j | 0 <= j ensures !BlankAt(e, j) {
      assert BlankAt(e, j) ==> BlankAt(buffer, j);
    }
    assert e != [] && e[i - 1] == LF ==> BlankAt(buffer, i - 1);
  }

  /** No other decomposition of a stream into events and a remainder exists. */
  lemma {:induction false} DecompositionIsUnique(events: seq<Bytes>, rest: Bytes)
    requires (forall e :: e in events ==> IsEvent(e)) && IsRemainder(rest)
    ensures Events(Joined(events) + rest) == events && Remainder(Joined(events) + rest) == rest
  {
    var buffer := Joined(events) + rest;
    if events == [] {
      assert buffer == rest;
      NoBlankIs(rest);
    } else {
      var e, more := events[0], Joined(events[1..]) + rest;
      assert buffer == e + [LF, LF] + more;
      var n := |e|;
      assert IsEvent(e);
      assert BlankAt(buffer, n);
      forall j | 0 <= j < n ensures !BlankAt(buffer, j) {
        if j + 1 < n { assert BlankAt(buffer, j) == BlankAt(e, j); }
      }
      FirstBlankIs(buffer, n);
      assert buffer[..n] == e && buffer[n + 2..] == more;
      DecompositionIsUnique(events[1..], rest);
    }
  }

  // ---- Lines, and the data they carry ------------------------------------------------------------------

  function JoinedLines(lines: seq<Bytes>): Bytes
    requires lines != []
  {
    if |lines| == 1 then lines[0] else lines[0] + [LF] + JoinedLines(lines[1..])
  }

  lemma {:induction false} LinesRejoin(s: Bytes, i: nat, line: Bytes)
    requires i <= |s| && LF !in line
    ensures var ls := Lines(s, i, line);
            ls != [] && JoinedLines(ls) == line + s[i..] && forall l :: l in ls ==> LF !in l
    decreases |s| - i
  {
    if i < |s| {
      assert s[i..] == [s[i]] + s[i + 1..];
      if s[i] == LF {
        LinesRejoin(s, i + 1, []);
        assert Lines(s, i, line)[1..] == Lines(s, i + 1, []);
      } else {
        LinesRejoin(s, i + 1, line + [s[i]]);
      }
    }
  }

  ghost predicate Blank(s: Bytes) { forall i :: 0 <= i < |s| ==> Space(s[i]) }

  ghost predicate Tight(s: Bytes) { s != [] && !Space(s[0]) && !Space(s[|s| - 1]) }

  lemma {:induction false} StripsPadding(pad: Bytes, s: Bytes)
    requires Blank(pad) && s != [] && !Space(s[0])
    ensures StripLeft(pad + s) == s
  {
    if pad == [] {
      assert pad + s == s;
    } else {
      assert (pad + s)[1..] == pad[1..] + s;
      StripsPadding(pad[1..], s);
    }
  }

  lemma {:induction false} StripsTail(s: Bytes, tail: Bytes)
    requires Blank(tail) && s != [] && !Space(s[|s| - 1])
    ensures StripRight(s + tail) == s
  {
    if tail == [] {
      assert s + tail == s;
    } else {
      var n := |tail| - 1;
      assert (s + tail)[..|s| + n] == s + tail[..n];
      StripsTail(s, tail[..n]);
    }
  }

  lemma StripsBoth(before: Bytes, s: Bytes, after: Bytes)
    requires Blank(before) && Blank(after) && Tight(s)
    ensures Strip(before + (s + after)) == s
  {
    StripsPadding(before, s + after);
    StripsTail(s, after);
  }

  /** A line that holds the usage key after "data:" is read by what its payload decodes to. */
  lemma PayloadIsRead(decode: Decoder, raw: Bytes, line: Bytes, payload: Bytes, n: nat)
    requires Strip(raw) == line && DATA <= line && Occurs(USAGE, line, n)
    requires Strip(line[|DATA|..]) == payload && |payload| > |DONE|
    ensures Read(decode, raw)
         == match decode(payload)
            case Object(usage, message) =>
              if message.NotADict? then Raises else Reports(usage, if message.Dict? then message.usage else None)
            case _ => Nothing
  {
    assert Contains(line, USAGE);
  }

  lemma OccursLater(before: Bytes, s: Bytes, sub: Bytes, i: nat)
    requires Occurs(sub, s, i)
    ensures Occurs(sub, before + s, |before| + i)
  {
    var n := |before| + i;
    assert (before + s)[n..n + |sub|] == s[i..i + |sub|];
  }

  /** A data line's payload is decoded whatever blanks surround it, a CR before the LF included. */
  lemma DataLineIsRead(decode: Decoder, before: Bytes, pad: Bytes, payload: Bytes, after: Bytes, i: nat)
    requires Blank(before) && Blank(pad) && Blank(after) && Tight(payload) && Occurs(USAGE, payload, i)
    ensures Read(decode, before + ([100, 97, 116, 97, 58] + pad + payload + after))
         == match decode(payload)
            case Object(usage, message) =>
              if message.NotADict? then Raises else Reports(usage, if message.Dict? then message.usage else None)
            case _ => Nothing
  {
    var line := DATA + pad + payload;
    assert line[..|DATA|] == DATA;
    StripsBoth(before, line, after);
    OccursLater(DATA + pad, payload, USAGE, i);
    assert line[|DATA|..] == pad + (payload + []);
    StripsBoth(pad, payload, []);
    PayloadIsRead(decode, before + (line + after), line, payload, |DATA + pad| + i);
  }

  /** Without blanks around it a line is itself; of blanks alone nothing is left. */
  lemma StripIs(before: Bytes, line: Bytes, after: Bytes)
    requires Blank(before) && Blank(after) && (line == [] || Tight(line))
    ensures Strip(before + (line + after)) == line
  {
    if line == [] {
      assert Blank(before + (line + after));
      StripsBlank(before + (line + after));
    } else {
      StripsBoth(before, line, after);
    }
  }

  lemma {:induction false} StripsBlank(s: Bytes)
    requires Blank(s)
    ensures StripLeft(s) == []
  {
    if s != [] {
      StripsBlank(s[1..]);
    }
  }

  /** A line that does not begin with data: or does not hold "usage" in quotes says nothing. */
  lemma OtherLinesAreIgnored(decode: Decoder, before: Bytes, line: Bytes, after: Bytes)
    requires Blank(before) && Blank(after) && (line == [] || Tight(line))
    requires !([100, 97, 116, 97, 58] <= line)
          || forall i: nat :: !Occurs([34, 117, 115, 97, 103, 101, 34], line, i)
    ensures Read(decode, before + (line + after)).Nothing?
  {
    StripIs(before, line, after);
  }

  // ---- What is captured --------------------------------------------------------------------------------

  /** The usages a line, the lines of an event, and events report, in order. */
  function LineUsages(r: Report): seq<Usage> {
    if !r.Reports? then []
    else (if r.first.Some? then [r.first.value] else []) + (if r.second.Some? then [r.second.value] else [])
  }

  function LinesUsages(decode: Decoder, lines: seq<Bytes>, i: nat): seq<Usage>
    requires i <= |lines|
    decreases |lines| - i
  {
    if i == |lines| then [] else LineUsages(Read(decode, lines[i])) + LinesUsages(decode, lines, i + 1)
  }

  function EventsUsages(decode: Decoder, events: seq<Bytes>): seq<Usage> {
    if events == [] then []
    else LinesUsages(decode, Lines(events[0], 0, []), 0) + EventsUsages(decode, events[1..])
  }

  function MergedAll(t: Totals, us: seq<Usage>): Totals
    decreases us
  {
    if us == [] then t else MergedAll(Merged(t, Some(us[0])), us[1..])
  }

  lemma {:induction false} MergedAllTwice(t: Totals, us: seq<Usage>, vs: seq<Usage>)
    ensures MergedAll(t, us + vs) == MergedAll(MergedAll(t, us), vs)
    decreases us
  {
    if us == [] {
      assert us + vs == vs;
    } else {
      assert (us + vs)[0] == us[0] && (us + vs)[1..] == us[1..] + vs;
      MergedAllTwice(Merged(t, Some(us[0])), us[1..], vs);
    }
  }

  lemma MergedLine(t: Totals, r: Report)
    requires r.Reports?
    ensures MergedAll(t, LineUsages(r)) == Merged(Merged(t, r.first), r.second)
  {
    var us := LineUsages(r);
    if us != [] {
      assert MergedAll(t, us) == MergedAll(Merged(t, Some(us[0])), us[1..]);
      if |us| == 2 { assert us[1..] == [us[1]] && us[1..][1..] == []; }
    }
  }

  lemma {:induction false} LinesMerge(decode: Decoder, lines: seq<Bytes>, i: nat, t: Totals)
    requires i <= |lines|
    ensures var s := ReadLines(decode, lines, i, t);
            s.Going? ==> s.totals == MergedAll(t, LinesUsages(decode, lines, i))
    decreases |lines| - i
  {
    if i < |lines| {
      var r := Read(decode, lines[i]);
      if r.Reports? {
        LinesMerge(decode, lines, i + 1, Merged(Merged(t, r.first), r.second));
        MergedLine(t, r);
        MergedAllTwice(t, LineUsages(r), LinesUsages(decode, lines, i + 1));
      } else if r.Nothing? {
        LinesMerge(decode, lines, i + 1, t);
        assert LineUsages(r) + LinesUsages(decode, lines, i + 1) == LinesUsages(decode, lines, i + 1);
      }
    }
  }

  /** A scan that does not raise leaves the remainder of the stream and has merged the usages
      of exactly its events. */
  lemma {:induction false} ScanMergesEvents(decode: Decoder, buffer: Bytes, t: Totals)
    requires ScanAll(decode, buffer, t).Going?
    ensures ScanAll(decode, buffer, t) == Going(MergedAll(t, EventsUsages(decode, Events(buffer))), Remainder(buffer))
    decreases |buffer|
  {
    var first := FirstBlank(buffer, 0);
    if first.Some? {
      var e := buffer[..first.value];
      LinesMerge(decode, Lines(e, 0, []), 0, t);
      var u := ReadEvent(decode, e, t).totals;
      ScanMergesEvents(decode, buffer[first.value + 2..], u);
      var more := Events(buffer[first.value + 2..]);
      MergedAllTwice(t, LinesUsages(decode, Lines(e, 0, []), 0), EventsUsages(decode, more));
    }
  }

  /** The lines of the events, one event after the other. */
  function LinesOf(events: seq<Bytes>): seq<Bytes> {
    if events == [] then [] else Lines(events[0], 0, []) + LinesOf(events[1..])
  }

  lemma {:induction false} ReadLinesOfSum(decode: Decoder, lines: seq<Bytes>, more: seq<Bytes>, i: nat, t: Totals)
    requires i <= |lines|
    ensures ReadLines(decode, lines + more, i, t)
         == match ReadLines(decode, lines, i, t)
            case Raised(u) => Raised(u)
            case Going(u, _) => ReadLines(decode, more, 0, u)
    decreases |lines| - i
  {
    if i == |lines| {
      ReadLinesLater(decode, lines, more, 0, t);
    } else {
      assert (lines + more)[i] == lines[i];
      match Read(decode, lines[i])
      case Nothing => ReadLinesOfSum(decode, lines, more, i + 1, t);
      case Raises =>
      case Reports(a, b) => ReadLinesOfSum(decode, lines, more, i + 1, Merged(Merged(t, a), b));
    }
  }

  lemma {:induction false} ReadLinesLater(decode: Decoder, lines: seq<Bytes>, more: seq<Bytes>, i: nat, t: Totals)
    requires i <= |more|
    ensures ReadLines(decode, lines + more, |lines| + i, t) == ReadLines(decode, more, i, t)
    decreases |more| - i
  {
    if i < |more| {
      assert (lines + more)[|lines| + i] == more[i];
      match Read(decode, more[i])
      case Nothing => ReadLinesLater(decode, lines, more, i + 1, t);
      case Raises =>
      case Reports(a, b) => ReadLinesLater(decode, lines, more, i + 1, Merged(Merged(t, a), b));
    }
  }

  lemma {:induction false} ScanReadsLines(decode: Decoder, buffer: Bytes, t: Totals)
    ensures ScanAll(decode, buffer, t)
         == match ReadLines(decode, LinesOf(Events(buffer)), 0, t)
            case Raised(u) => Raised(u)
            case Going(u, _) => Going(u, Remainder(buffer))
    decreases |buffer|
  {
    var first := FirstBlank(buffer, 0);
    if first.Some? {
      var e, more := buffer[..first.value], buffer[first.value + 2..];
      assert Events(buffer)[1..] == Events(more);
      ReadLinesOfSum(decode, Lines(e, 0, []), LinesOf(Events(more)), 0, t);
      match ReadEvent(decode, e, t)
      case Raised(_) =>
      case Going(u, _) => ScanReadsLines(decode, more, u);
    }
  }

  /** No line from i to before m raises, and if there is a line m, it does. */
  ghost predicate RaisesFirstAt(decode: Decoder, lines: seq<Bytes>, i: nat, m: nat) {
    && i <= m <= |lines| && (forall j :: i <= j < m ==> !Read(decode, lines[j]).Raises?)
    && (m < |lines| ==> Read(decode, lines[m]).Raises?)
  }

  /** What the lines from i to before m report, after t. */
  function MergedLines(decode: Decoder, lines: seq<Bytes>, i: nat, m: nat, t: Totals): Totals
    requires i <= m <= |lines|
  {
    MergedAll(t, LinesUsages(decode, lines[..m], i))
  }

  lemma MergedFromNext(decode: Decoder, lines: seq<Bytes>, i: nat, m: nat, t: Totals)
    requires i < m <= |lines|
    ensures MergedLines(decode, lines, i, m, t)
         == match Read(decode, lines[i])
            case Reports(a, b) => MergedLines(decode, lines, i + 1, m, Merged(Merged(t, a), b))
            case _ => MergedLines(decode, lines, i + 1, m, t)
  {
    var r, rest := Read(decode, lines[i]), LinesUsages(decode, lines[..m], i + 1);
    assert lines[..m][i] == lines[i];
    assert LinesUsages(decode, lines[..m], i) == LineUsages(r) + rest;
    if r.Reports? {
      MergedLine(t, r);
      MergedAllTwice(t, LineUsages(r), rest);
    } else {
      assert LineUsages(r) + rest == rest;
    }
  }

  lemma {:induction false} ReadLinesIsExactly(decode: Decoder, lines: seq<Bytes>, i: nat, t: Totals) returns (m: nat)
    requires i <= |lines|
    ensures RaisesFirstAt(decode, lines, i, m)
    ensures ReadLines(decode, lines, i, t)
         == var u := MergedLines(decode, lines, i, m, t); if m < |lines| then Raised(u) else Going(u, [])
    decreases |lines| - i
  {
    m := i;
    if i < |lines| {
      match Read(decode, lines[i])
      case Nothing =>
        m := ReadLinesIsExactly(decode, lines, i + 1, t);
        MergedFromNext(decode, lines, i, m, t);
      case Raises =>
      case Reports(a, b) =>
        m := ReadLinesIsExactly(decode, lines, i + 1, Merged(Merged(t, a), b));
        MergedFromNext(decode, lines, i, m, t);
    }
  }

  /** A scan raises if and only if a line of some event does. It has then merged what the lines
      before the first such line report, and otherwise what all lines of all events report. */
  lemma ScanIsExactly(decode: Decoder, buffer: Bytes, t: Totals) returns (m: nat)
    ensures var lines := LinesOf(Events(buffer));
            RaisesFirstAt(decode, lines, 0, m)
            && ScanAll(decode, buffer, t)
               == var u := MergedLines(decode, lines, 0, m, t);
                  if m < |lines| then Raised(u) else Going(u, Remainder(buffer))
  {
    ScanReadsLines(decode, buffer, t);
    m := ReadLinesIsExactly(decode, LinesOf(Events(buffer)), 0, t);
  }

  /** The latest non-null value reported for a key. */
  ghost predicate LatestFor(us: seq<Usage>, k: string, i: int) {
    && 0 <= i < |us| && k in us[i] && us[i][k].Some?
    && forall j :: i < j < |us| ==> k in us[j] ==> us[j][k].None?
  }

  /** The totals hold k if and only if it was ever reported non-null, and then its latest value. */
  ghost predicate HoldsLatest(t: Totals, us: seq<Usage>, k: string) {
    && (t.Some? && k in t.value <==> exists i :: LatestFor(us, k, i))
    && forall i :: LatestFor(us, k, i) ==> t.Some? && k in t.value && t.value[k] == us[i][k].value
  }

  lemma {:induction false} TotalIsLatest(us: seq<Usage>, k: string)
    ensures HoldsLatest(MergedAll(None, us), us, k)
    decreases |us|
  {
    if us != [] {
      var n := |us| - 1;
      TotalIsLatest(us[..n], k);
      MergedOneMore(us);
      LatestOneMore(us, k);
    }
  }

  /** The totals hold, for each key ever reported non-null, the latest such value, and nothing
      else; there are none at all only if no usage was reported. */
  lemma TotalsAreLatest(us: seq<Usage>)
    ensures MergedAll(None, us).None? <==> us == []
    ensures forall k :: HoldsLatest(MergedAll(None, us), us, k)
  {
    if us != [] {
      MergedOneMore(us);
    }
    forall k ensures HoldsLatest(MergedAll(None, us), us, k) {
      TotalIsLatest(us, k);
    }
  }

  lemma MergedOneMore(us: seq<Usage>)
    requires us != []
    ensures var n := |us| - 1; MergedAll(None, us) == Merged(MergedAll(None, us[..n]), Some(us[n]))
  {
    var n := |us| - 1;
    MergedAllTwice(None, us[..n], [us[n]]);
    assert us[..n] + [us[n]] == us && [us[n]][1..] == [];
  }

  lemma LatestOneMore(us: seq<Usage>, k: string)
    requires us != []
    ensures var n, last := |us| - 1, us[|us| - 1];
            if k in last && last[k].Some? then LatestFor(us, k, n) && forall i :: LatestFor(us, k, i) ==> i == n
            else forall i :: LatestFor(us, k, i) <==> LatestFor(us[..n], k, i)
  {
    var n, last := |us| - 1, us[|us| - 1];
    if !(k in last && last[k].Some?) {
      forall i ensures LatestFor(us, k, i) <==> LatestFor(us[..n], k, i) {
        assert forall j :: 0 <= j < n ==> us[j] == us[..n][j];
      }
    }
  }
}
