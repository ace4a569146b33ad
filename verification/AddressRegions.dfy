/** Building blocks and exception regions from an addressed instruction stream and an exception table. */
module AddressTables {
  import opened Wrappers
  import opened Sequences

  /** `end` is absent when it does not fit the address space. */
  datatype AddressInst = AddressInst(address: nat, end: Option<nat>, endsBlock: bool)

  datatype Handler = Handler(start: nat, end: nat, entry: nat)

  datatype Error =
    | ZeroSizeInstruction(address: nat) | UnorderedInstruction(previous: nat, address: nat) | AddressOverflow(address: nat)
    | EmptyProtectedRange(start: nat, end: nat) | MissingRangeStart(address: nat) | MissingRangeEnd(address: nat)
    | MissingHandlerEntry(address: nat)

  datatype Inspected = Inspected(addresses: seq<nat>, transfers: seq<nat>, codeEnd: Option<nat>)

  function Addresses(insts: seq<AddressInst>): (r: seq<nat>)
    ensures |r| == |insts|
  {
    seq(|insts|, i requires 0 <= i < |insts| => insts[i].address)
  }

  /** What is wrong with the `i`-th instruction. */
  function InstFault(insts: seq<AddressInst>, i: nat): Option<Error>
    requires i < |insts|
  {
    var t := insts[i];
    if t.end.None? then Some(AddressOverflow(t.address))
    else if t.end.value <= t.address then Some(ZeroSizeInstruction(t.address))
    else if i > 0 && t.address <= insts[i - 1].address then Some(UnorderedInstruction(insts[i - 1].address, t.address))
    else None
  }

  /** `e` is the error of the first faulty instruction. */
  ghost predicate FirstInstFault(insts: seq<AddressInst>, e: Error) {
    exists i :: 0 <= i < |insts| && InstFault(insts, i) == Some(e) && forall j :: 0 <= j < i ==> InstFault(insts, j).None?
  }

  /** Where the transfers are. */
  function Transfers(insts: seq<AddressInst>): seq<nat> {
    if insts == [] then []
    else
      var n := |insts| - 1;
      Transfers(insts[..n]) + if insts[n].endsBlock then [n] else []
  }

  /** `end` is the greatest end of any instruction. */
  ghost predicate IsCodeEnd(insts: seq<AddressInst>, end: Option<nat>) {
    && (end.None? <==> insts == [])
    && (end.Some? ==> (exists i :: 0 <= i < |insts| && insts[i].end == end)
                      && forall i :: 0 <= i < |insts| ==> insts[i].end.Some? && insts[i].end.value <= end.value)
  }

  lemma {:induction false} FaultlessIncreasing(insts: seq<AddressInst>, n: nat)
    requires n <= |insts| && forall i :: 0 <= i < n ==> InstFault(insts, i).None?
    ensures Increasing(Addresses(insts)[..n])
  {
    if n > 0 {
      FaultlessIncreasing(insts, n - 1);
      var a := Addresses(insts);
      assert n > 1 ==> InstFault(insts, n - 1).None? && a[n - 2] < a[n - 1];
      var less := a[..n - 1];
      assert forall i :: 0 <= i < n - 1 ==> less[i] == a[..n][i];
      assert forall i :: 0 <= i < n - 2 ==> less[i] < less[n - 2];
    }
  }

  /** Accepts exactly a stream of nonempty instructions at increasing addresses. */
  lemma FaultFound(insts: seq<AddressInst>, i: nat)
    requires i < |insts| && forall j :: 0 <= j < i ==> InstFault(insts, j).None?
    ensures InstFault(insts, i).Some? ==> FirstInstFault(insts, InstFault(insts, i).value)
  {
  }

  /** The `i`-th instruction is nonempty, ends inside the address space and comes after the one before. */
  predicate Follows(insts: seq<AddressInst>, i: nat)
    requires i < |insts|
  {
    && insts[i].end.Some? && insts[i].address < insts[i].end.value
    && (i > 0 ==> insts[i - 1].address < insts[i].address)
  }

  /** The error names the first instruction that does not follow, and the first thing wrong with it. */
  predicate Names(insts: seq<AddressInst>, i: nat, e: Error)
    requires i < |insts|
  {
    match e
    case AddressOverflow(address) => address == insts[i].address && insts[i].end.None?
    case ZeroSizeInstruction(address) => address == insts[i].address && insts[i].end.Some? && insts[i].end.value <= address
    case UnorderedInstruction(previous, address) =>
      && address == insts[i].address && insts[i].end.Some? && address < insts[i].end.value
      && i > 0 && previous == insts[i - 1].address && address <= previous
    case _ => false
  }

  lemma FaultNamed(insts: seq<AddressInst>, i: nat)
    requires i < |insts|
    ensures InstFault(insts, i).None? <==> Follows(insts, i)
    ensures InstFault(insts, i).Some? ==> Names(insts, i, InstFault(insts, i).value)
  {
  }

  /** The error of an inspection is that of the first instruction that does not follow. */
  lemma FirstFaultNamed(insts: seq<AddressInst>, e: Error)
    ensures FirstInstFault(insts, e) ==>
              exists i :: 0 <= i < |insts| && Names(insts, i, e) && forall j :: 0 <= j < i ==> Follows(insts, j)
  {
    hide InstFault, Follows, Names;
    if FirstInstFault(insts, e) {
      var i :| 0 <= i < |insts| && InstFault(insts, i) == Some(e) && forall j :: 0 <= j < i ==> InstFault(insts, j).None?;
      FaultNamed(insts, i);
      forall j | 0 <= j < i ensures Follows(insts, j) {
        FaultNamed(insts, j);
      }
    }
  }

  lemma {:induction false} TransfersExact(insts: seq<AddressInst>)
    ensures Increasing(Transfers(insts))
    ensures forall i: nat :: i in Transfers(insts) <==> i < |insts| && insts[i].endsBlock
  {
    if insts != [] {
      var n := |insts| - 1;
      TransfersExact(insts[..n]);
      var less := Transfers(insts[..n]);
      forall i | 0 <= i < |less| ensures less[i] < n {
        assert less[i] in less;
      }
    }
  }

  method InspectInstructions(insts: seq<AddressInst>) returns (r: Result<Inspected, Error>)
    ensures r.Err? ==> FirstInstFault(insts, r.error)
    ensures r.Ok? ==>
              && (forall i :: 0 <= i < |insts| ==> InstFault(insts, i).None?) && Increasing(r.value.addresses)
              && r.value.addresses == Addresses(insts) && r.value.transfers == Transfers(insts) && IsCodeEnd(insts, r.value.codeEnd)
  {
    hide FirstInstFault;
    var previous: Option<nat> := None;
    var codeEnd: Option<nat> := None;
    var addresses, transfers := [], [];
    for i := 0 to |insts|
      invariant forall j :: 0 <= j < i ==> InstFault(insts, j).None?
      invariant addresses == Addresses(insts)[..i] && transfers == Transfers(insts[..i]) && IsCodeEnd(insts[..i], codeEnd)
      invariant previous == if i == 0 then None else Some(insts[i - 1].address)
    {
      var t := insts[i];
      assert insts[..i + 1][..i] == insts[..i];
      var fault := InstFault(insts, i);
      if t.end.None? {
        FaultFound(insts, i);
        assert fault == Some(AddressOverflow(t.address));
        return Err(AddressOverflow(t.address));
      }
      if t.end.value <= t.address {
        FaultFound(insts, i);
        assert fault == Some(ZeroSizeInstruction(t.address));
        return Err(ZeroSizeInstruction(t.address));
      }
      if previous.Some? && t.address <= previous.value {
        FaultFound(insts, i);
        assert fault == Some(UnorderedInstruction(previous.value, t.address));
        return Err(UnorderedInstruction(previous.value, t.address));
      }
      previous := Some(t.address);
      CodeEndNext(insts[..i], codeEnd, t, insts[..i + 1]);
      if codeEnd.None? || t.end.value > codeEnd.value {
        codeEnd := t.end;
      }
      if t.endsBlock {
        transfers := transfers + [i];
      }
      addresses := addresses + [t.address];
    }
    assert insts[..|insts|] == insts;
    FaultlessIncreasing(insts, |insts|);
    r := Ok(Inspected(addresses, transfers, codeEnd));
  }

  lemma CodeEndNext(insts: seq<AddressInst>, end: Option<nat>, t: AddressInst, more: seq<AddressInst>)
    requires IsCodeEnd(insts, end) && t.end.Some? && more == insts + [t]
    ensures IsCodeEnd(more, if end.None? || t.end.value > end.value then t.end else end)
  {
    var next := if end.None? || t.end.value > end.value then t.end else end;
    if next == t.end {
      assert more[|insts|].end == next;
    } else {
      var i :| 0 <= i < |insts| && insts[i].end == end;
      assert more[i].end == next;
    }
  }

  /** Where address `a` starts an instruction. */
  function Position(addresses: seq<nat>, a: nat): (r: Option<nat>)
    ensures r.Some? ==> r.value < |addresses| && addresses[r.value] == a
    ensures r.None? ==> a !in addresses
  {
    if addresses == [] then None
    else if addresses[|addresses| - 1] == a then Some(|addresses| - 1)
    else Position(addresses[..|addresses| - 1], a)
  }

  /** A half-open range of positions. */
  datatype Span = Span(start: nat, end: nat)

  predicate Covers(s: Span, p: int) { s.start <= p < s.end }

  /** The instructions of a protected address range. Its end may be the end of the code. */
  function RangePositions(h: Handler, codeEnd: Option<nat>, addresses: seq<nat>): Result<Span, Error> {
    if h.end <= h.start then Err(EmptyProtectedRange(h.start, h.end))
    else
      var start := Position(addresses, h.start);
      if start.None? then Err(MissingRangeStart(h.start))
      else if codeEnd == Some(h.end) then Ok(Span(start.value, |addresses|))
      else
        var end := Position(addresses, h.end);
        if end.None? then Err(MissingRangeEnd(h.end)) else Ok(Span(start.value, end.value))
  }

  function HandlerFault(h: Handler, codeEnd: Option<nat>, addresses: seq<nat>): Option<Error> {
    var r := RangePositions(h, codeEnd, addresses);
    if r.Err? then Some(r.error)
    else if Position(addresses, h.entry).None? then Some(MissingHandlerEntry(h.entry))
    else None
  }

  /** A table entry is accepted exactly when its range is nonempty and starts at an instruction, its handler is one, and
      its range ends at one or where the code ends. */
  predicate Acceptable(h: Handler, codeEnd: Option<nat>, addresses: seq<nat>) {
    h.start < h.end && h.start in addresses && h.entry in addresses && (h.end in addresses || codeEnd == Some(h.end))
  }

  /** The first thing wrong with a table entry. */
  function Refusal(h: Handler, codeEnd: Option<nat>, addresses: seq<nat>): Error {
    if h.end <= h.start then EmptyProtectedRange(h.start, h.end)
    else if h.start !in addresses then MissingRangeStart(h.start)
    else if h.end !in addresses && codeEnd != Some(h.end) then MissingRangeEnd(h.end)
    else MissingHandlerEntry(h.entry)
  }

  lemma AcceptedExact(h: Handler, codeEnd: Option<nat>, addresses: seq<nat>)
    ensures HandlerFault(h, codeEnd, addresses) == if Acceptable(h, codeEnd, addresses) then None else Some(Refusal(h, codeEnd, addresses))
  {
  }

  /** A range holds exactly the instructions whose addresses it protects. */
  lemma RangeExact(h: Handler, codeEnd: Option<nat>, addresses: seq<nat>, p: nat)
    requires Increasing(addresses) && RangePositions(h, codeEnd, addresses).Ok? && p < |addresses|
    requires codeEnd.Some? ==> forall i :: 0 <= i < |addresses| ==> addresses[i] < codeEnd.value
    ensures var s := RangePositions(h, codeEnd, addresses).value;
            s.start < s.end <= |addresses| && (Covers(s, p) <==> h.start <= addresses[p] < h.end)
  {
  }

  /** How many of the spans cover a position, start there, or end there. */
  function Covering(spans: seq<Span>, p: int): nat {
    if spans == [] then 0 else Covering(spans[..|spans| - 1], p) + if Covers(spans[|spans| - 1], p) then 1 else 0
  }

  function StartsAt(spans: seq<Span>, p: int): nat {
    if spans == [] then 0 else StartsAt(spans[..|spans| - 1], p) + if spans[|spans| - 1].start == p then 1 else 0
  }

  function EndsAt(spans: seq<Span>, p: int): nat {
    if spans == [] then 0 else EndsAt(spans[..|spans| - 1], p) + if spans[|spans| - 1].end == p then 1 else 0
  }

  /** Sweeping on by one position: what ends there was active, so the count never runs below zero. */
  lemma {:induction false} SweepStep(spans: seq<Span>, p: int)
    requires forall i :: 0 <= i < |spans| ==> spans[i].start < spans[i].end
    ensures EndsAt(spans, p) <= Covering(spans, p - 1)
    ensures Covering(spans, p) == Covering(spans, p - 1) - EndsAt(spans, p) + StartsAt(spans, p)
  {
    if spans != [] {
      SweepStep(spans[..|spans| - 1], p);
    }
  }

  lemma {:induction false} CoveringMeans(spans: seq<Span>, p: int)
    ensures Covering(spans, p) > 0 <==> exists i :: 0 <= i < |spans| && Covers(spans[i], p)
  {
    if spans != [] {
      var n := |spans| - 1;
      CoveringMeans(spans[..n], p);
      if Covering(spans[..n], p) > 0 {
        var i :| 0 <= i < |spans[..n]| && Covers(spans[..n][i], p);
        assert Covers(spans[i], p);
      }
      if i :| 0 <= i < |spans| && Covers(spans[i], p) {
        assert i < n ==> Covers(spans[..n][i], p);
      }
    }
  }

  datatype HandlerIndex = HandlerIndex(ranges: seq<Span>, entries: seq<nat>)

  /** The table made an instruction a leader: it is protected, or a range ends there, or a handler starts there. */
  ghost predicate Marked(index: HandlerIndex, p: nat) {
    || (exists i :: 0 <= i < |index.ranges| && (Covers(index.ranges[i], p) || index.ranges[i].end == p))
    || p in index.entries
  }

  /** The positions of each table entry. */
  ghost predicate Indexes(index: HandlerIndex, handlers: seq<Handler>, codeEnd: Option<nat>, addresses: seq<nat>) {
    && |index.ranges| == |index.entries| == |handlers|
    && forall i :: 0 <= i < |handlers| ==> IndexedAt(index.ranges[i], index.entries[i], handlers[i], codeEnd, addresses)
  }

  predicate IndexedAt(s: Span, entry: nat, h: Handler, codeEnd: Option<nat>, addresses: seq<nat>) {
    && RangePositions(h, codeEnd, addresses) == Ok(s) && Position(addresses, h.entry) == Some(entry)
    && s.start < s.end <= |addresses|
  }

  ghost predicate FirstHandlerFault(handlers: seq<Handler>, codeEnd: Option<nat>, addresses: seq<nat>, e: Error) {
    exists i :: 0 <= i < |handlers| && HandlerFault(handlers[i], codeEnd, addresses) == Some(e)
                && forall j :: 0 <= j < i ==> HandlerFault(handlers[j], codeEnd, addresses).None?
  }

  /** One table entry: the positions it names, or its fault. */
  method ReadHandler(h: Handler, codeEnd: Option<nat>, addresses: seq<nat>) returns (r: Result<(Span, nat), Error>)
    requires Increasing(addresses)
    requires codeEnd.Some? ==> forall i :: 0 <= i < |addresses| ==> addresses[i] < codeEnd.value
    ensures r.Err? ==> HandlerFault(h, codeEnd, addresses) == Some(r.error)
    ensures r.Ok? ==> HandlerFault(h, codeEnd, addresses).None? && IndexedAt(r.value.0, r.value.1, h, codeEnd, addresses)
    ensures r.Ok? ==> r.value.0.start < r.value.0.end <= |addresses| && r.value.1 < |addresses|
    ensures r.Ok? <==> Acceptable(h, codeEnd, addresses)
    ensures r.Err? ==> r.error == Refusal(h, codeEnd, addresses)
    ensures r.Ok? ==> forall p :: 0 <= p < |addresses| ==> (r.value.0.start <= p < r.value.0.end <==> h.start <= addresses[p] < h.end)
    ensures r.Ok? ==> addresses[r.value.1] == h.entry
  {
    AcceptedExact(h, codeEnd, addresses);
    var positions := RangePositions(h, codeEnd, addresses);
    if positions.Err? {
      return Err(positions.error);
    }
    RangeExact(h, codeEnd, addresses, positions.value.start);
    var entry := Position(addresses, h.entry);
    if entry.None? {
      return Err(MissingHandlerEntry(h.entry));
    }
    r := Ok((positions.value, entry.value));
    forall p | 0 <= p < |addresses| ensures Covers(positions.value, p) <==> h.start <= addresses[p] < h.end {
      RangeExact(h, codeEnd, addresses, p);
    }
  }

  /** Checks the table against the stream and marks the leaders it needs. */
  method ValidateHandlers(handlers: seq<Handler>, codeEnd: Option<nat>, addresses: seq<nat>, leaders: array<bool>)
    returns (r: Result<HandlerIndex, Error>)
    requires Increasing(addresses) && leaders.Length == |addresses|
    requires codeEnd.Some? ==> forall i :: 0 <= i < |addresses| ==> addresses[i] < codeEnd.value
    modifies leaders
    ensures r.Err? ==> FirstHandlerFault(handlers, codeEnd, addresses, r.error)
    ensures r.Ok? ==> Indexes(r.value, handlers, codeEnd, addresses)
    ensures r.Ok? <==> forall i :: 0 <= i < |handlers| ==> Acceptable(handlers[i], codeEnd, addresses)
    ensures r.Ok? ==> forall p :: 0 <= p < leaders.Length ==> (leaders[p] <==> old(leaders[p]) || Marked(r.value, p))
  {
    hide RangePositions, HandlerFault, Position, Covering, Covers, Marked, Acceptable;
    var ranges, entries := [], [];
    var rangeStarts := new nat[|addresses| + 1](_ => 0);
    var rangeEnds := new nat[|addresses| + 1](_ => 0);
    for i := 0 to |handlers|
      invariant forall j :: 0 <= j < i ==> HandlerFault(handlers[j], codeEnd, addresses).None?
      invariant forall j :: 0 <= j < i ==> Acceptable(handlers[j], codeEnd, addresses)
      invariant Indexes(HandlerIndex(ranges, entries), handlers[..i], codeEnd, addresses)
      invariant forall p :: 0 <= p <= |addresses| ==> rangeStarts[p] == StartsAt(ranges, p) && rangeEnds[p] == EndsAt(ranges, p)
      invariant forall p :: 0 <= p < leaders.Length ==> (leaders[p] <==> old(leaders[p]) || Bounded(ranges, entries, p))
    {
      var read := ReadHandler(handlers[i], codeEnd, addresses);
      if read.Err? {
        return Err(read.error);
      }
      var (positions, entry) := read.value;
      MarkBounds(positions, entry, leaders, rangeStarts, rangeEnds);
      BoundedNext(ranges, entries, positions, entry);
      IndexesNext(HandlerIndex(ranges, entries), handlers, i, codeEnd, addresses, positions, entry);
      CountsNext(ranges, positions);
      ranges, entries := ranges + [positions], entries + [entry];
    }
    assert handlers[..|handlers|] == handlers;
    MarkActive(ranges, rangeStarts, rangeEnds, leaders);
    r := Ok(HandlerIndex(ranges, entries));
    forall p | 0 <= p < leaders.Length ensures leaders[p] <==> old(leaders[p]) || Marked(r.value, p) {
      MarkedMeans(ranges, entries, p);
    }
  }

  lemma CountsNext(ranges: seq<Span>, s: Span)
    ensures forall p :: StartsAt(ranges + [s], p) == StartsAt(ranges, p) + if p == s.start then 1 else 0
    ensures forall p :: EndsAt(ranges + [s], p) == EndsAt(ranges, p) + if p == s.end then 1 else 0
  {
    assert (ranges + [s])[..|ranges|] == ranges;
  }

  method MarkBounds(s: Span, entry: nat, leaders: array<bool>, rangeStarts: array<nat>, rangeEnds: array<nat>)
    requires rangeStarts.Length == rangeEnds.Length == leaders.Length + 1 && rangeStarts != rangeEnds
    requires s.start < s.end <= leaders.Length && entry < leaders.Length
    modifies leaders, rangeStarts, rangeEnds
    ensures forall p :: 0 <= p < leaders.Length ==> (leaders[p] <==> old(leaders[p]) || p == s.start || p == s.end || p == entry)
    ensures forall p :: 0 <= p <= leaders.Length ==>
              && rangeStarts[p] == old(rangeStarts[p]) + (if p == s.start then 1 else 0)
              && rangeEnds[p] == old(rangeEnds[p]) + (if p == s.end then 1 else 0)
  {
    leaders[s.start] := true;
    if s.end < leaders.Length {
      leaders[s.end] := true;
    }
    leaders[entry] := true;
    rangeStarts[s.start] := rangeStarts[s.start] + 1;
    rangeEnds[s.end] := rangeEnds[s.end] + 1;
  }

  lemma IndexesNext(index: HandlerIndex, handlers: seq<Handler>, i: nat, codeEnd: Option<nat>, addresses: seq<nat>, s: Span, entry: nat)
    requires i < |handlers| && Indexes(index, handlers[..i], codeEnd, addresses)
    requires IndexedAt(s, entry, handlers[i], codeEnd, addresses)
    ensures Indexes(HandlerIndex(index.ranges + [s], index.entries + [entry]), handlers[..i + 1], codeEnd, addresses)
  {
    var (ranges, entries) := (index.ranges + [s], index.entries + [entry]);
    forall j | 0 <= j < i + 1 ensures IndexedAt(ranges[j], entries[j], handlers[..i + 1][j], codeEnd, addresses) {
      if j < i {
        assert IndexedAt(index.ranges[j], index.entries[j], handlers[..i][j], codeEnd, addresses);
      }
    }
  }

  /** A leader at a bound of a range, or at a handler entry. */
  ghost predicate Bounded(ranges: seq<Span>, entries: seq<nat>, p: nat) {
    (exists i :: 0 <= i < |ranges| && (ranges[i].start == p || ranges[i].end == p)) || p in entries
  }

  lemma BoundedNext(ranges: seq<Span>, entries: seq<nat>, s: Span, entry: nat)
    ensures forall p {:trigger Bounded(ranges + [s], entries + [entry], p)} {:trigger Bounded(ranges, entries, p)} ::
              Bounded(ranges + [s], entries + [entry], p) <==> Bounded(ranges, entries, p) || p == s.start || p == s.end || p == entry
  {
    forall p: nat
      ensures Bounded(ranges + [s], entries + [entry], p) <==> Bounded(ranges, entries, p) || p == s.start || p == s.end || p == entry
    {
      var more := ranges + [s];
      assert more[|ranges|] == s;
      if i :| 0 <= i < |ranges| && (ranges[i].start == p || ranges[i].end == p) {
        assert more[i] == ranges[i];
      }
    }
  }

  lemma MarkedMeans(ranges: seq<Span>, entries: seq<nat>, p: nat)
    requires forall i :: 0 <= i < |ranges| ==> ranges[i].start < ranges[i].end
    ensures Marked(HandlerIndex(ranges, entries), p) <==> Bounded(ranges, entries, p) || Covering(ranges, p) > 0
  {
    CoveringMeans(ranges, p);
    if i :| 0 <= i < |ranges| && (ranges[i].start == p || ranges[i].end == p) {
      assert Covers(ranges[i], p) || ranges[i].end == p;
    }
  }

  /** The sweep: a position is active while some range covers it. */
  method MarkActive(ghost ranges: seq<Span>, rangeStarts: array<nat>, rangeEnds: array<nat>, leaders: array<bool>)
    requires rangeStarts.Length == rangeEnds.Length == leaders.Length + 1
    requires forall i :: 0 <= i < |ranges| ==> ranges[i].start < ranges[i].end
    requires forall p :: 0 <= p <= leaders.Length ==> rangeStarts[p] == StartsAt(ranges, p) && rangeEnds[p] == EndsAt(ranges, p)
    modifies leaders
    ensures forall p :: 0 <= p < leaders.Length ==> (leaders[p] <==> old(leaders[p]) || Covering(ranges, p) > 0)
  {
    var active: nat := 0;
    NoneBefore(ranges);
    for position := 0 to leaders.Length
      invariant active == Covering(ranges, position - 1)
      invariant forall p :: 0 <= p < leaders.Length ==>
                  (leaders[p] <==> old(leaders[p]) || (p < position && Covering(ranges, p) > 0))
    {
      SweepStep(ranges, position);
      active := active - rangeEnds[position];
      active := active + rangeStarts[position];
      if active != 0 {
        leaders[position] := true;
      }
    }
  }

  lemma {:induction false} NoneBefore(spans: seq<Span>)
    ensures Covering(spans, -1) == 0
  {
    if spans != [] {
      NoneBefore(spans[..|spans| - 1]);
    }
  }

  /** The block of each position, when each leader but the first starts a new one. */
  ghost predicate Runs(leaders: seq<bool>, blockOf: seq<nat>) {
    && |blockOf| <= |leaders| && (blockOf != [] ==> blockOf[0] == 0)
    && forall p :: 0 < p < |blockOf| ==> blockOf[p] == blockOf[p - 1] + if leaders[p] then 1 else 0
  }

  /** Block `b` holds exactly the positions that map to it, in order and without a gap. */
  ghost predicate HoldsRun(block: seq<nat>, b: nat, blockOf: seq<nat>) {
    && (forall i :: 0 <= i < |block| ==> block[i] == block[0] + i && block[i] < |blockOf|)
    && forall p :: 0 <= p < |blockOf| ==> (p in block <==> blockOf[p] == b)
  }

  datatype Populated = Populated(blocks: seq<seq<nat>>, blockOf: seq<nat>, terminators: seq<(nat, nat)>)

  /** The blocks cut the stream into runs that start at the leaders. An empty stream has one empty block. */
  ghost predicate IsPopulated(leaders: seq<bool>, r: Populated) {
    && |r.blockOf| == |leaders| && Runs(leaders, r.blockOf) && |r.blocks| > 0
    && (forall b :: 0 <= b < |r.blocks| ==> HoldsRun(r.blocks[b], b, r.blockOf))
    && (forall p :: 0 <= p < |leaders| ==> r.blockOf[p] < |r.blocks|)
    && (leaders != [] ==> |r.terminators| == |r.blocks|) && (leaders == [] ==> r.terminators == [] && r.blocks == [[]])
    && forall b :: 0 <= b < |r.terminators| ==> r.terminators[b].0 == b && EndsWith(r.blocks[b], r.terminators[b].1)
  }

  /** The stream has been cut up to a position. */
  ghost predicate Cutting(leaders: seq<bool>, blocks: seq<seq<nat>>, blockOf: seq<nat>, terminators: seq<(nat, nat)>, position: nat) {
    && |blockOf| == position <= |leaders| && Runs(leaders, blockOf) && |blocks| == |terminators| + 1
    && (position == 0 ==> blocks == [[]])
    && (position > 0 ==> EndsWith(blocks[|terminators|], position - 1) && blockOf[position - 1] == |terminators|)
    && (forall b :: 0 <= b < |blocks| ==> HoldsRun(blocks[b], b, blockOf))
    && (forall p :: 0 <= p < position ==> blockOf[p] < |blocks|)
    && forall b :: 0 <= b < |terminators| ==> terminators[b].0 == b && EndsWith(blocks[b], terminators[b].1)
  }

  predicate EndsWith(s: seq<nat>, x: nat) { s != [] && s[|s| - 1] == x }

  method PopulateBlocks(leaders: array<bool>) returns (r: Populated)
    ensures IsPopulated(leaders[..], r)
    ensures |r.blockOf| == leaders.Length && (leaders.Length > 0 ==> r.blockOf[0] == 0)
    ensures forall p :: 0 < p < leaders.Length ==> r.blockOf[p] == r.blockOf[p - 1] + if leaders[p] then 1 else 0
    ensures forall b, p :: 0 <= b < |r.blocks| && 0 <= p < leaders.Length ==> (p in r.blocks[b] <==> r.blockOf[p] == b)
  {
    var blocks: seq<seq<nat>>, blockOf: seq<nat>, terminators: seq<(nat, nat)> := [[]], [], [];
    var current: nat := 0;
    for position := 0 to leaders.Length
      invariant Cutting(leaders[..], blocks, blockOf, terminators, position) && current == |terminators|
    {
      if position != 0 && leaders[position] {
        StartRun(leaders[..], blocks, blockOf, terminators, position);
        terminators := terminators + [(current, position - 1)];
        current := |blocks|;
        blocks := blocks + [[]];
      } else {
        StayInRun(leaders[..], blocks, blockOf, terminators, position);
      }
      blocks := blocks[current := blocks[current] + [position]];
      blockOf := blockOf + [current];
    }
    if leaders.Length != 0 {
      terminators := terminators + [(current, leaders.Length - 1)];
    }
    r := Populated(blocks, blockOf, terminators);
  }

  lemma StayInRun(leaders: seq<bool>, blocks: seq<seq<nat>>, blockOf: seq<nat>, terminators: seq<(nat, nat)>, position: nat)
    requires Cutting(leaders, blocks, blockOf, terminators, position) && position < |leaders| && (position == 0 || !leaders[position])
    ensures var current := |terminators|;
            Cutting(leaders, blocks[current := blocks[current] + [position]], blockOf + [current], terminators, position + 1)
  {
    AddToRun(blocks, |terminators|, blockOf, position);
  }

  lemma StartRun(leaders: seq<bool>, blocks: seq<seq<nat>>, blockOf: seq<nat>, terminators: seq<(nat, nat)>, position: nat)
    requires Cutting(leaders, blocks, blockOf, terminators, position) && 0 < position < |leaders| && leaders[position]
    ensures var (current, more) := (|blocks|, blocks + [[]]);
            Cutting(leaders, more[current := more[current] + [position]], blockOf + [current],
                    terminators + [(|terminators|, position - 1)], position + 1)
  {
    var more := blocks + [[]];
    forall b | 0 <= b < |more| ensures HoldsRun(more[b], b, blockOf) {
      assert b < |blocks| ==> HoldsRun(blocks[b], b, blockOf);
    }
    AddToRun(more, |blocks|, blockOf, position);
  }

  lemma AddToRun(blocks: seq<seq<nat>>, current: nat, blockOf: seq<nat>, position: nat)
    requires current == |blocks| - 1 && |blockOf| == position && forall b :: 0 <= b < |blocks| ==> HoldsRun(blocks[b], b, blockOf)
    requires blocks[current] == [] || blocks[current][|blocks[current]| - 1] == position - 1
    ensures forall b :: 0 <= b < |blocks| ==>
              HoldsRun(if b == current then blocks[current] + [position] else blocks[b], b, blockOf + [current])
  {
    forall b | 0 <= b < |blocks|
      ensures HoldsRun(if b == current then blocks[current] + [position] else blocks[b], b, blockOf + [current])
    {
      var block := if b == current then blocks[current] + [position] else blocks[b];
      assert HoldsRun(blocks[b], b, blockOf);
      forall p | 0 <= p < position + 1 ensures p in block <==> (blockOf + [current])[p] == b {
        if p == position {
          assert b == current ==> block[|blocks[b]|] == position;
        }
      }
    }
  }

  /** Every protected instruction is alone in its block. */
  lemma ProtectedAlone(leaders: seq<bool>, r: Populated, index: HandlerIndex, i: nat, p: nat)
    requires IsPopulated(leaders, r) && i < |index.ranges| && Covers(index.ranges[i], p) && index.ranges[i].end <= |leaders|
    requires forall q :: 0 <= q < |leaders| && Marked(index, q) ==> leaders[q]
    ensures p < |leaders| && r.blockOf[p] < |r.blocks| && r.blocks[r.blockOf[p]] == [p]
  {
    var block := r.blocks[r.blockOf[p]];
    assert HoldsRun(block, r.blockOf[p], r.blockOf);
    assert Marked(index, p) && (p + 1 < |leaders| ==> Marked(index, p + 1));
    assert p in block;
    forall i | 0 <= i < |block| ensures block[i] == p {
      assert block[i] in block;
      AloneBetween(leaders, r.blockOf, p, block[i]);
    }
    var last := |block| - 1;
    assert block[last] == block[0] + last;
  }

  /** A leader followed by a leader shares its block with nothing. */
  lemma AloneBetween(leaders: seq<bool>, blockOf: seq<nat>, p: nat, q: nat)
    requires Runs(leaders, blockOf) && p < |blockOf| && q < |blockOf| && blockOf[q] == blockOf[p]
    requires leaders[p] && (p + 1 < |blockOf| ==> leaders[p + 1])
    ensures p == q
  {
    if q < p {
      RunsRise(leaders, blockOf, q, p - 1);
    } else if p < q {
      RunsRise(leaders, blockOf, p + 1, q);
    }
  }

  lemma {:induction false} RunsRise(leaders: seq<bool>, blockOf: seq<nat>, p: nat, q: nat)
    requires Runs(leaders, blockOf) && p <= q < |blockOf|
    ensures blockOf[p] <= blockOf[q]
    decreases q
  {
    if p < q {
      RunsRise(leaders, blockOf, p, q - 1);
    }
  }
}

/** Regions from the exception table: one for each protected range, enclosing ranges first. */
module AddressRegions {
  import opened Wrappers
  import opened Sequences
  import opened AddressTables

  /** One protected range and the table entries for it, in table order. */
  datatype Draft = Draft(start: nat, end: nat, positions: Span, members: seq<nat>)

  /** The handler's body is unknown; the region knows where it starts. */
  datatype RegionHandler = RegionHandler(entry: nat)

  datatype Region = Region(protectedBlocks: set<nat>, handlers: seq<RegionHandler>, parent: Option<nat>)

  datatype HandlerRef = HandlerRef(region: nat, index: nat)

  function Key(d: Draft): (nat, nat) { (d.start, d.end) }

  function KeyOf(h: Handler): (nat, nat) { (h.start, h.end) }

  function Width(d: Draft): int { d.end - d.start }

  predicate StrictlyContains(outer: Draft, inner: Draft) {
    (outer.start != inner.start || outer.end != inner.end) && outer.start <= inner.start && inner.end <= outer.end
  }

  /** The draft groups entries of its own range, each listed once and in table order. */
  ghost predicate DraftOk(d: Draft, handlers: seq<Handler>, ranges: seq<Span>, n: nat)
    requires n <= |handlers| == |ranges|
  {
    && d.members != [] && Increasing(d.members)
    && forall j :: 0 <= j < |d.members| ==>
         d.members[j] < n && KeyOf(handlers[d.members[j]]) == Key(d) && ranges[d.members[j]] == d.positions
  }

  ghost predicate Grouped(drafts: seq<Draft>, i: nat) { exists d :: 0 <= d < |drafts| && i in drafts[d].members }

  /** Every entry so far is in the draft of its range, and drafts are in the order of their first entries. */
  ghost predicate Drafted(drafts: seq<Draft>, handlers: seq<Handler>, ranges: seq<Span>, n: nat)
    requires n <= |handlers| == |ranges|
  {
    && (forall d :: 0 <= d < |drafts| ==> DraftOk(drafts[d], handlers, ranges, n))
    && (forall a, b :: 0 <= a < b < |drafts| ==> Key(drafts[a]) != Key(drafts[b]) && drafts[a].members[0] < drafts[b].members[0])
    && forall i :: 0 <= i < n ==> Grouped(drafts, i)
  }

  /** Entries of the same range have the same positions. */
  ghost predicate SamePositions(handlers: seq<Handler>, ranges: seq<Span>) {
    && |handlers| == |ranges|
    && forall i, j :: 0 <= i < |handlers| && 0 <= j < |handlers| && KeyOf(handlers[i]) == KeyOf(handlers[j]) ==> ranges[i] == ranges[j]
  }

  lemma IndexesSamePositions(index: HandlerIndex, handlers: seq<Handler>, codeEnd: Option<nat>, addresses: seq<nat>)
    requires Indexes(index, handlers, codeEnd, addresses)
    ensures SamePositions(handlers, index.ranges)
  {
    forall i, j | 0 <= i < |handlers| && 0 <= j < |handlers| && KeyOf(handlers[i]) == KeyOf(handlers[j])
      ensures index.ranges[i] == index.ranges[j]
    {
      assert IndexedAt(index.ranges[i], index.entries[i], handlers[i], codeEnd, addresses);
      assert IndexedAt(index.ranges[j], index.entries[j], handlers[j], codeEnd, addresses);
    }
  }

  lemma NothingDrafted(handlers: seq<Handler>, ranges: seq<Span>)
    requires |handlers| == |ranges|
    ensures Drafted([], handlers, ranges, 0)
  {
  }

  /** Groups the table by protected range. */
  method GroupByRange(handlers: seq<Handler>, ranges: seq<Span>) returns (drafts: seq<Draft>)
    requires SamePositions(handlers, ranges)
    ensures Drafted(drafts, handlers, ranges, |handlers|)
  {
    hide Drafted, Increasing;
    NothingDrafted(handlers, ranges);
    drafts := [];
    var draftIndex: map<(nat, nat), nat> := map[];
    for i := 0 to |handlers|
      invariant Drafted(drafts, handlers, ranges, i)
      invariant ByKey(draftIndex, drafts)
    {
      var key := KeyOf(handlers[i]);
      if key in draftIndex {
        var d := draftIndex[key];
        JoinDraft(drafts, handlers, ranges, i, d);
        KeyKept(draftIndex, drafts, d, drafts[d].(members := drafts[d].members + [i]));
        drafts := drafts[d := drafts[d].(members := drafts[d].members + [i])];
      } else {
        AddDraft(drafts, handlers, ranges, i);
        KeyAdded(draftIndex, drafts, Draft(handlers[i].start, handlers[i].end, ranges[i], [i]));
        draftIndex := draftIndex[key := |drafts|];
        drafts := drafts + [Draft(handlers[i].start, handlers[i].end, ranges[i], [i])];
      }
    }
  }

  /** The index finds each range's draft. */
  ghost predicate ByKey(draftIndex: map<(nat, nat), nat>, drafts: seq<Draft>) {
    && (forall k :: k in draftIndex ==> draftIndex[k] < |drafts| && Key(drafts[draftIndex[k]]) == k)
    && forall d :: 0 <= d < |drafts| ==> Key(drafts[d]) in draftIndex
  }

  lemma KeyKept(draftIndex: map<(nat, nat), nat>, drafts: seq<Draft>, d: nat, joined: Draft)
    requires ByKey(draftIndex, drafts) && d < |drafts| && Key(joined) == Key(drafts[d])
    ensures ByKey(draftIndex, drafts[d := joined])
  {
  }

  lemma KeyAdded(draftIndex: map<(nat, nat), nat>, drafts: seq<Draft>, d: Draft)
    requires ByKey(draftIndex, drafts) && Key(d) !in draftIndex
    ensures ByKey(draftIndex[Key(d) := |drafts|], drafts + [d])
    ensures forall a :: 0 <= a < |drafts| ==> Key(drafts[a]) != Key(d)
  {
  }

  lemma JoinDraft(drafts: seq<Draft>, handlers: seq<Handler>, ranges: seq<Span>, i: nat, d: nat)
    requires i < |handlers| && SamePositions(handlers, ranges) && Drafted(drafts, handlers, ranges, i)
    requires d < |drafts| && Key(drafts[d]) == KeyOf(handlers[i])
    ensures Drafted(drafts[d := drafts[d].(members := drafts[d].members + [i])], handlers, ranges, i + 1)
  {
    var joined := drafts[d].(members := drafts[d].members + [i]);
    var more := drafts[d := joined];
    assert DraftOk(drafts[d], handlers, ranges, i) && drafts[d].members[0] in drafts[d].members;
    forall a | 0 <= a < |more| ensures DraftOk(more[a], handlers, ranges, i + 1) && more[a].members[0] == drafts[a].members[0] {
      assert DraftOk(drafts[a], handlers, ranges, i);
    }
    forall k | 0 <= k < i + 1 ensures Grouped(more, k) {
      if k == i {
        assert joined.members[|drafts[d].members|] == i;
        assert k in more[d].members;
      } else {
        assert Grouped(drafts, k);
        var a :| 0 <= a < |drafts| && k in drafts[a].members;
        assert k in more[a].members;
      }
    }
  }

  lemma AddDraft(drafts: seq<Draft>, handlers: seq<Handler>, ranges: seq<Span>, i: nat)
    requires i < |handlers| && |handlers| == |ranges| && Drafted(drafts, handlers, ranges, i)
    requires forall d :: 0 <= d < |drafts| ==> Key(drafts[d]) != KeyOf(handlers[i])
    ensures Drafted(drafts + [Draft(handlers[i].start, handlers[i].end, ranges[i], [i])], handlers, ranges, i + 1)
  {
    var d := Draft(handlers[i].start, handlers[i].end, ranges[i], [i]);
    var more := drafts + [d];
    forall a | 0 <= a < |more| ensures DraftOk(more[a], handlers, ranges, i + 1) {
      assert a < |drafts| ==> DraftOk(drafts[a], handlers, ranges, i);
    }
    forall k | 0 <= k < i + 1 ensures Grouped(more, k) {
      if k == i {
        assert more[|drafts|] == d && k in d.members;
      } else {
        assert Grouped(drafts, k);
        var a :| 0 <= a < |drafts| && k in drafts[a].members;
        assert k in more[a].members;
      }
    }
  }

  /** Wider first; table order among equals. */
  predicate Before(a: Draft, b: Draft)
    requires a.members != [] && b.members != []
  {
    Width(a) > Width(b) || (Width(a) == Width(b) && a.members[0] < b.members[0])
  }

  ghost predicate InOrder(s: seq<Draft>) {
    && (forall i :: 0 <= i < |s| ==> s[i].members != [])
    && forall i, j :: 0 <= i < j < |s| ==> Before(s[i], s[j])
  }

  function Insert(s: seq<Draft>, d: Draft): seq<Draft> {
    if s == [] || Width(s[|s| - 1]) >= Width(d) then s + [d] else Insert(s[..|s| - 1], d) + [s[|s| - 1]]
  }

  /** The stable sort by falling width. */
  function SortByWidth(drafts: seq<Draft>): seq<Draft> {
    if drafts == [] then [] else Insert(SortByWidth(drafts[..|drafts| - 1]), drafts[|drafts| - 1])
  }

  lemma {:induction false} InsertOrdered(s: seq<Draft>, d: Draft)
    requires InOrder(s) && d.members != [] && forall i :: 0 <= i < |s| ==> s[i].members[0] < d.members[0]
    ensures |Insert(s, d)| == |s| + 1 && InOrder(Insert(s, d)) && forall x :: x in Insert(s, d) <==> x in s || x == d
  {
    if s != [] && Width(s[|s| - 1]) < Width(d) {
      var n := |s| - 1;
      InsertOrdered(s[..n], d);
      assert s == s[..n] + [s[n]];
      forall i | 0 <= i < n + 1 ensures Before(Insert(s[..n], d)[i], s[n]) {
        assert Insert(s[..n], d)[i] in Insert(s[..n], d);
      }
    } else {
      assert forall i :: 0 <= i < |s| ==> Width(s[i]) >= Width(s[|s| - 1]);
    }
  }

  lemma {:induction false} SortOrdered(drafts: seq<Draft>)
    requires forall i :: 0 <= i < |drafts| ==> drafts[i].members != []
    requires forall i, j :: 0 <= i < j < |drafts| ==> drafts[i].members[0] < drafts[j].members[0]
    ensures |SortByWidth(drafts)| == |drafts| && InOrder(SortByWidth(drafts))
    ensures forall x :: x in SortByWidth(drafts) <==> x in drafts
  {
    if drafts != [] {
      var n := |drafts| - 1;
      SortOrdered(drafts[..n]);
      var s := SortByWidth(drafts[..n]);
      forall i | 0 <= i < |s| ensures s[i].members[0] < drafts[n].members[0] {
        assert s[i] in drafts[..n];
      }
      InsertOrdered(s, drafts[n]);
      assert drafts == drafts[..n] + [drafts[n]];
    }
  }

  /** The drafts in the order they are registered: one for each range, and every entry in the draft of its range. */
  ghost predicate Registered(drafts: seq<Draft>, handlers: seq<Handler>, ranges: seq<Span>)
    requires |handlers| == |ranges|
  {
    && InOrder(drafts) && (forall d :: 0 <= d < |drafts| ==> DraftOk(drafts[d], handlers, ranges, |handlers|))
    && (forall a, b :: 0 <= a < |drafts| && 0 <= b < |drafts| && Key(drafts[a]) == Key(drafts[b]) ==> a == b)
    && forall i :: 0 <= i < |handlers| ==> Grouped(drafts, i)
  }

  lemma OrderDistinct(s: seq<Draft>)
    requires InOrder(s)
    ensures forall a, b :: 0 <= a < |s| && 0 <= b < |s| && s[a] == s[b] ==> a == b
  {
    forall a, b | 0 <= a < b < |s| ensures s[a] != s[b] {
      assert Before(s[a], s[b]);
    }
  }

  lemma SortRegisters(drafts: seq<Draft>, handlers: seq<Handler>, ranges: seq<Span>)
    requires |handlers| == |ranges| && Drafted(drafts, handlers, ranges, |handlers|)
    ensures Registered(SortByWidth(drafts), handlers, ranges)
  {
    assert forall i :: 0 <= i < |drafts| ==> DraftOk(drafts[i], handlers, ranges, |handlers|);
    SortOrdered(drafts);
    var s := SortByWidth(drafts);
    forall d | 0 <= d < |s| ensures DraftOk(s[d], handlers, ranges, |handlers|) {
      assert s[d] in drafts;
    }
    OrderDistinct(s);
    forall a, b | 0 <= a < |s| && 0 <= b < |s| && Key(s[a]) == Key(s[b]) ensures a == b {
      assert s[a] in drafts && s[b] in drafts;
      assert s[a] == s[b];
    }
    forall i | 0 <= i < |handlers| ensures Grouped(s, i) {
      assert Grouped(drafts, i);
      var k :| 0 <= k < |drafts| && i in drafts[k].members;
      assert drafts[k] in s;
    }
  }

  /** The narrowest draft before `k` that strictly contains draft `k`; the first of equals. */
  ghost predicate IsParent(drafts: seq<Draft>, k: nat, n: nat, parent: Option<nat>)
    requires n <= k < |drafts|
  {
    match parent
    case None => forall j :: 0 <= j < n ==> !StrictlyContains(drafts[j], drafts[k])
    case Some(p) =>
      && p < n && StrictlyContains(drafts[p], drafts[k])
      && forall j :: 0 <= j < n && StrictlyContains(drafts[j], drafts[k]) ==>
           Width(drafts[p]) <= Width(drafts[j]) && (j < p ==> Width(drafts[p]) < Width(drafts[j]))
  }

  method FindParent(drafts: seq<Draft>, k: nat) returns (parent: Option<nat>)
    requires k < |drafts|
    ensures IsParent(drafts, k, k, parent)
  {
    parent := None;
    for j := 0 to k
      invariant IsParent(drafts, k, j, parent)
    {
      if StrictlyContains(drafts[j], drafts[k]) && (parent.None? || Width(drafts[j]) < Width(drafts[parent.value])) {
        parent := Some(j);
      }
    }
  }

  /** Enclosing ranges are registered first, so the parent is the narrowest of all that enclose it. */
  lemma ParentOfAll(drafts: seq<Draft>, k: nat, parent: Option<nat>, j: nat)
    requires InOrder(drafts) && k < |drafts| && j < |drafts| && IsParent(drafts, k, k, parent) && StrictlyContains(drafts[j], drafts[k])
    ensures j < k && parent.Some? && StrictlyContains(drafts[parent.value], drafts[k])
    ensures Width(drafts[parent.value]) <= Width(drafts[j])
  {
    assert k < j ==> Before(drafts[k], drafts[j]);
  }

  /** The blocks of a range. */
  function BlocksOf(s: Span, blockOf: seq<nat>): set<nat>
    requires s.end <= |blockOf|
  {
    set p | s.start <= p < s.end :: blockOf[p]
  }

  ghost predicate IsRegion(drafts: seq<Draft>, k: nat, entries: seq<nat>, blockOf: seq<nat>, r: Region)
    requires k < |drafts|
  {
    var d := drafts[k];
    && d.positions.end <= |blockOf| && r.protectedBlocks == BlocksOf(d.positions, blockOf)
    && |r.handlers| == |d.members| && IsParent(drafts, k, k, r.parent)
    && forall j :: 0 <= j < |d.members| ==>
         d.members[j] < |entries| && entries[d.members[j]] < |blockOf| && r.handlers[j].entry == blockOf[entries[d.members[j]]]
  }

  /** Each table entry has the reference of its place in its region. */
  ghost predicate RefersTo(drafts: seq<Draft>, ref: HandlerRef, i: nat) {
    ref.region < |drafts| && ref.index < |drafts[ref.region].members| && drafts[ref.region].members[ref.index] == i
  }

  ghost predicate IsRegions(drafts: seq<Draft>, entries: seq<nat>, blockOf: seq<nat>, regions: seq<Region>, refs: seq<HandlerRef>) {
    && |regions| == |drafts| && |refs| == |entries|
    && (forall k :: 0 <= k < |drafts| ==> IsRegion(drafts, k, entries, blockOf, regions[k]))
    && forall i :: 0 <= i < |refs| ==> RefersTo(drafts, refs[i], i)
  }

  /** Registers the drafts in order, and gives each table entry its reference. */
  method AddRegions(handlers: seq<Handler>, index: HandlerIndex, blockOf: seq<nat>)
    returns (regions: seq<Region>, refs: seq<HandlerRef>, ghost drafts: seq<Draft>)
    requires SamePositions(handlers, index.ranges) && |index.entries| == |handlers|
    requires forall i :: 0 <= i < |handlers| ==> index.ranges[i].end <= |blockOf| && index.entries[i] < |blockOf|
    ensures Registered(drafts, handlers, index.ranges) && IsRegions(drafts, index.entries, blockOf, regions, refs)
  {
    var grouped := GroupByRange(handlers, index.ranges);
    SortRegisters(grouped, handlers, index.ranges);
    var sorted := SortByWidth(grouped);
    drafts := sorted;
    regions := [];
    var filled := new Option<HandlerRef>[|handlers|](_ => None);
    for k := 0 to |sorted|
      invariant |regions| == k && forall j :: 0 <= j < k ==> IsRegion(sorted, j, index.entries, blockOf, regions[j])
      invariant forall i :: 0 <= i < filled.Length && filled[i].Some? ==> RefersTo(sorted, filled[i].value, i)
      invariant forall j, m :: 0 <= j < k && 0 <= m < |sorted[j].members| ==>
                  sorted[j].members[m] < filled.Length && filled[sorted[j].members[m]].Some?
    {
      var region := RegionOf(sorted, k, handlers, index, blockOf);
      regions := regions + [region];
      FillRefs(sorted, k, filled);
    }
    AllReferred(sorted, handlers, index.ranges, filled[..]);
    refs := seq(|handlers|, i requires 0 <= i < filled.Length && filled[i].Some? reads filled => filled[i].value);
  }

  method RegionOf(drafts: seq<Draft>, k: nat, handlers: seq<Handler>, index: HandlerIndex, blockOf: seq<nat>) returns (r: Region)
    requires |handlers| == |index.ranges| == |index.entries| && k < |drafts| && DraftOk(drafts[k], handlers, index.ranges, |handlers|)
    requires forall i :: 0 <= i < |handlers| ==> index.ranges[i].end <= |blockOf| && index.entries[i] < |blockOf|
    ensures IsRegion(drafts, k, index.entries, blockOf, r)
  {
    var d := drafts[k];
    assert d.positions == index.ranges[d.members[0]];
    var blocks := {};
    for p := d.positions.start to if d.positions.end < d.positions.start then d.positions.start else d.positions.end
      invariant blocks == set q | d.positions.start <= q < p :: blockOf[q]
    {
      blocks := blocks + {blockOf[p]};
    }
    var region: seq<RegionHandler> := [];
    for j := 0 to |d.members|
      invariant |region| == j
      invariant forall m :: 0 <= m < j ==> region[m].entry == blockOf[index.entries[d.members[m]]]
    {
      region := region + [RegionHandler(blockOf[index.entries[d.members[j]]])];
    }
    var parent := FindParent(drafts, k);
    r := Region(blocks, region, parent);
  }

  method FillRefs(drafts: seq<Draft>, k: nat, filled: array<Option<HandlerRef>>)
    requires k < |drafts| && Increasing(drafts[k].members)
    requires forall m :: 0 <= m < |drafts[k].members| ==> drafts[k].members[m] < filled.Length
    modifies filled
    ensures forall m :: 0 <= m < |drafts[k].members| ==> filled[drafts[k].members[m]] == Some(HandlerRef(k, m))
    ensures forall i :: 0 <= i < filled.Length && i !in drafts[k].members ==> filled[i] == old(filled[i])
  {
    var members := drafts[k].members;
    for j := 0 to |members|
      invariant forall m :: 0 <= m < j ==> filled[members[m]] == Some(HandlerRef(k, m))
      invariant forall i :: 0 <= i < filled.Length && i !in members ==> filled[i] == old(filled[i])
    {
      filled[members[j]] := Some(HandlerRef(k, j));
    }
  }

  lemma AllReferred(drafts: seq<Draft>, handlers: seq<Handler>, ranges: seq<Span>, filled: seq<Option<HandlerRef>>)
    requires |handlers| == |ranges| == |filled| && Registered(drafts, handlers, ranges)
    requires forall j, m :: 0 <= j < |drafts| && 0 <= m < |drafts[j].members| ==>
               drafts[j].members[m] < |filled| && filled[drafts[j].members[m]].Some?
    ensures forall i :: 0 <= i < |filled| ==> filled[i].Some?
  {
    forall i | 0 <= i < |filled| ensures filled[i].Some? {
      assert Grouped(drafts, i);
      var d :| 0 <= d < |drafts| && i in drafts[d].members;
      var m :| 0 <= m < |drafts[d].members| && drafts[d].members[m] == i;
    }
  }

  /** There is one reference per table entry, in table order: it names the region of the entry's range and a handler that
      starts at the entry's block; no two entries share one, and every handler of every region has one. */
  lemma RefsMatchTable(drafts: seq<Draft>, handlers: seq<Handler>, index: HandlerIndex, blockOf: seq<nat>, regions: seq<Region>,
                       refs: seq<HandlerRef>)
    requires |handlers| == |index.ranges| == |index.entries| && Registered(drafts, handlers, index.ranges)
    requires IsRegions(drafts, index.entries, blockOf, regions, refs)
    ensures |refs| == |handlers|
    ensures forall i :: 0 <= i < |refs| ==>
              && refs[i].region < |regions| && refs[i].index < |regions[refs[i].region].handlers|
              && Key(drafts[refs[i].region]) == KeyOf(handlers[i])
              && index.ranges[i].end <= |blockOf| && index.entries[i] < |blockOf|
              && regions[refs[i].region].protectedBlocks == BlocksOf(index.ranges[i], blockOf)
              && regions[refs[i].region].handlers[refs[i].index].entry == blockOf[index.entries[i]]
    ensures forall i, j :: 0 <= i < j < |refs| ==> refs[i] != refs[j]
    ensures forall k, m :: 0 <= k < |regions| && 0 <= m < |regions[k].handlers| ==> HandlerRef(k, m) in refs
  {
    forall i | 0 <= i < |refs|
      ensures refs[i].region < |regions| && refs[i].index < |regions[refs[i].region].handlers|
      ensures Key(drafts[refs[i].region]) == KeyOf(handlers[i])
      ensures index.ranges[i].end <= |blockOf| && index.entries[i] < |blockOf|
      ensures regions[refs[i].region].protectedBlocks == BlocksOf(index.ranges[i], blockOf)
      ensures regions[refs[i].region].handlers[refs[i].index].entry == blockOf[index.entries[i]]
    {
      assert RefersTo(drafts, refs[i], i);
      assert IsRegion(drafts, refs[i].region, index.entries, blockOf, regions[refs[i].region]);
      assert DraftOk(drafts[refs[i].region], handlers, index.ranges, |handlers|);
    }
    forall i, j | 0 <= i < j < |refs| ensures refs[i] != refs[j] {
      assert RefersTo(drafts, refs[i], i) && RefersTo(drafts, refs[j], j);
    }
    forall k, m | 0 <= k < |regions| && 0 <= m < |regions[k].handlers| ensures HandlerRef(k, m) in refs {
      SlotReferred(drafts, handlers, index, blockOf, regions, refs, k, m);
    }
  }

  lemma SlotReferred(drafts: seq<Draft>, handlers: seq<Handler>, index: HandlerIndex, blockOf: seq<nat>, regions: seq<Region>,
                     refs: seq<HandlerRef>, k: nat, m: nat)
    requires |handlers| == |index.ranges| == |index.entries| && Registered(drafts, handlers, index.ranges)
    requires IsRegions(drafts, index.entries, blockOf, regions, refs) && k < |regions| && m < |regions[k].handlers|
    ensures HandlerRef(k, m) in refs
  {
    assert IsRegion(drafts, k, index.entries, blockOf, regions[k]) && DraftOk(drafts[k], handlers, index.ranges, |handlers|);
    var i := drafts[k].members[m];
    assert RefersTo(drafts, refs[i], i);
    var other := refs[i];
    assert DraftOk(drafts[other.region], handlers, index.ranges, |handlers|);
    assert Key(drafts[other.region]) == KeyOf(handlers[i]) == Key(drafts[k]);
    assert other.region == k;
    assert other.index == m by {
      assert drafts[k].members[other.index] == drafts[k].members[m];
    }
    assert refs[i] == HandlerRef(k, m);
  }

  /** Every instruction is nonempty, ends inside the address space and comes after the one before. */
  predicate Streamed(insts: seq<AddressInst>) {
    forall i :: 0 <= i < |insts| ==> Follows(insts, i)
  }

  predicate StartsInst(insts: seq<AddressInst>, a: nat) { exists i :: 0 <= i < |insts| && insts[i].address == a }

  /** Some instruction ends at `a`, and none ends later. */
  predicate EndsCode(insts: seq<AddressInst>, a: nat) {
    && (exists i :: 0 <= i < |insts| && insts[i].end == Some(a))
    && forall i :: 0 <= i < |insts| ==> insts[i].end.Some? && insts[i].end.value <= a
  }

  /** The entry fits the stream: its range is nonempty, starts at an instruction and ends at one or where the code ends,
      and its handler is an instruction. */
  predicate Placeable(h: Handler, insts: seq<AddressInst>) {
    h.start < h.end && StartsInst(insts, h.start) && StartsInst(insts, h.entry) && (StartsInst(insts, h.end) || EndsCode(insts, h.end))
  }

  /** An entry of the table covers the instruction at `p`, ends there, or is handled there. */
  predicate Touches(handlers: seq<Handler>, insts: seq<AddressInst>, p: nat)
    requires p < |insts|
  {
    exists i :: 0 <= i < |handlers|
                && (handlers[i].start <= insts[p].address < handlers[i].end || insts[p].address == handlers[i].end
                    || insts[p].address == handlers[i].entry)
  }

  lemma StreamedExact(insts: seq<AddressInst>)
    ensures Streamed(insts) <==> forall i :: 0 <= i < |insts| ==> InstFault(insts, i).None?
  {
    forall i | 0 <= i < |insts| ensures InstFault(insts, i).None? <==> Follows(insts, i) {
      FaultNamed(insts, i);
    }
  }

  lemma PlaceableExact(h: Handler, insts: seq<AddressInst>, codeEnd: Option<nat>)
    requires IsCodeEnd(insts, codeEnd)
    ensures Placeable(h, insts) <==> Acceptable(h, codeEnd, Addresses(insts))
  {
    forall a ensures StartsInst(insts, a) <==> a in Addresses(insts) {
      if StartsInst(insts, a) {
        var i :| 0 <= i < |insts| && insts[i].address == a;
        assert Addresses(insts)[i] == a;
      }
    }
    assert EndsCode(insts, h.end) <==> codeEnd == Some(h.end);
  }

  lemma TouchedExact(insts: seq<AddressInst>, handlers: seq<Handler>, index: HandlerIndex, codeEnd: Option<nat>, p: nat)
    requires Streamed(insts) && IsCodeEnd(insts, codeEnd) && p < |insts|
    requires Indexes(index, handlers, codeEnd, Addresses(insts))
    ensures Marked(index, p) <==> Touches(handlers, insts, p)
  {
    hide RangePositions, Position;
    StreamedExact(insts);
    FaultlessIncreasing(insts, |insts|);
    assert Addresses(insts)[..|insts|] == Addresses(insts);
    BelowCodeEnd(insts, codeEnd);
    forall i | 0 <= i < |handlers|
      ensures Covers(index.ranges[i], p) <==> handlers[i].start <= insts[p].address < handlers[i].end
      ensures index.ranges[i].end == p <==> insts[p].address == handlers[i].end
      ensures index.entries[i] == p <==> insts[p].address == handlers[i].entry
    {
      assert IndexedAt(index.ranges[i], index.entries[i], handlers[i], codeEnd, Addresses(insts));
      BoundExact(index.ranges[i], index.entries[i], handlers[i], codeEnd, Addresses(insts), p);
    }
    if p in index.entries {
      var i :| 0 <= i < |index.entries| && index.entries[i] == p;
    }
  }

  lemma BoundExact(s: Span, entry: nat, h: Handler, codeEnd: Option<nat>, addresses: seq<nat>, p: nat)
    requires Increasing(addresses) && IndexedAt(s, entry, h, codeEnd, addresses) && p < |addresses|
    requires codeEnd.Some? ==> forall i :: 0 <= i < |addresses| ==> addresses[i] < codeEnd.value
    ensures Covers(s, p) <==> h.start <= addresses[p] < h.end
    ensures s.end == p <==> addresses[p] == h.end
    ensures entry == p <==> addresses[p] == h.entry
  {
    RangeExact(h, codeEnd, addresses, p);
    assert addresses[entry] == h.entry;
  }

  datatype AddressGraph = AddressGraph(populated: Populated, regions: seq<Region>, refs: seq<HandlerRef>)

  /** The blocks and regions of a stream. The given leaders are those its control flow asks for. */
  method BuildRegions(insts: seq<AddressInst>, handlers: seq<Handler>, leaders: array<bool>)
    returns (r: Result<AddressGraph, Error>, ghost index: HandlerIndex, ghost drafts: seq<Draft>)
    requires leaders.Length == |insts|
    modifies leaders
    ensures r.Err? ==>
              || FirstInstFault(insts, r.error)
              || exists end :: IsCodeEnd(insts, end) && FirstHandlerFault(handlers, end, Addresses(insts), r.error)
    ensures r.Ok? ==>
              && Built(insts, handlers, index, leaders[..], drafts, r.value)
              && forall p :: 0 <= p < |insts| ==> (leaders[p] <==> old(leaders[p]) || Marked(index, p))
    ensures r.Ok? <==> Streamed(insts) && forall i :: 0 <= i < |handlers| ==> Placeable(handlers[i], insts)
    ensures r.Ok? ==> forall p :: 0 <= p < |insts| ==> (leaders[p] <==> old(leaders[p]) || Touches(handlers, insts, p))
  {
    hide InstFault, RangePositions, Acceptable, Placeable, Streamed, Touches, Marked, Increasing;
    StreamedExact(insts);
    index, drafts := HandlerIndex([], []), [];
    var inspected := InspectInstructions(insts);
    if inspected.Err? {
      return Err(inspected.error), index, drafts;
    }
    var addresses, codeEnd := inspected.value.addresses, inspected.value.codeEnd;
    BelowCodeEnd(insts, codeEnd);
    forall i | 0 <= i < |handlers| ensures Placeable(handlers[i], insts) <==> Acceptable(handlers[i], codeEnd, addresses) {
      PlaceableExact(handlers[i], insts, codeEnd);
    }
    var found := ValidateHandlers(handlers, codeEnd, addresses, leaders);
    if found.Err? {
      return Err(found.error), index, drafts;
    }
    index := found.value;
    forall p | 0 <= p < |insts| ensures Marked(index, p) <==> Touches(handlers, insts, p) {
      TouchedExact(insts, handlers, index, codeEnd, p);
    }
    var populated := PopulateBlocks(leaders);
    IndexesSamePositions(found.value, handlers, codeEnd, addresses);
    InBounds(found.value, handlers, codeEnd, addresses);
    var regions, refs;
    regions, refs, drafts := AddRegions(handlers, found.value, populated.blockOf);
    r := Ok(AddressGraph(populated, regions, refs));
  }

  lemma BelowCodeEnd(insts: seq<AddressInst>, end: Option<nat>)
    requires IsCodeEnd(insts, end) && forall i :: 0 <= i < |insts| ==> InstFault(insts, i).None?
    ensures end.Some? ==> forall i :: 0 <= i < |insts| ==> Addresses(insts)[i] < end.value
  {
    forall i | end.Some? && 0 <= i < |insts| ensures Addresses(insts)[i] < end.value {
      assert InstFault(insts, i).None?;
    }
  }

  lemma InBounds(index: HandlerIndex, handlers: seq<Handler>, codeEnd: Option<nat>, addresses: seq<nat>)
    requires Indexes(index, handlers, codeEnd, addresses)
    ensures forall i :: 0 <= i < |handlers| ==> index.ranges[i].end <= |addresses| && index.entries[i] < |addresses|
  {
    forall i | 0 <= i < |handlers| ensures index.ranges[i].end <= |addresses| && index.entries[i] < |addresses| {
      assert IndexedAt(index.ranges[i], index.entries[i], handlers[i], codeEnd, addresses);
    }
  }

  ghost predicate Built(insts: seq<AddressInst>, handlers: seq<Handler>, index: HandlerIndex, leaders: seq<bool>, drafts: seq<Draft>,
                        g: AddressGraph)
  {
    && (forall i :: 0 <= i < |insts| ==> InstFault(insts, i).None?) && |leaders| == |insts|
    && (exists end :: IsCodeEnd(insts, end) && Indexes(index, handlers, end, Addresses(insts)))
    && (forall p :: 0 <= p < |insts| && Marked(index, p) ==> leaders[p])
    && IsPopulated(leaders, g.populated) && |index.ranges| == |handlers|
    && Registered(drafts, handlers, index.ranges) && IsRegions(drafts, index.entries, g.populated.blockOf, g.regions, g.refs)
  }

  /** A table entry's region protects a block exactly when the block is one instruction inside the entry's address range. */
  lemma ProtectsRange(insts: seq<AddressInst>, handlers: seq<Handler>, index: HandlerIndex, leaders: seq<bool>, drafts: seq<Draft>,
                      g: AddressGraph, i: nat, p: nat)
    requires Built(insts, handlers, index, leaders, drafts, g) && i < |handlers| && p < |insts|
    ensures i < |g.refs| && g.refs[i].region < |g.regions| && p < |g.populated.blockOf|
    ensures var (b, region) := (g.populated.blockOf[p], g.regions[g.refs[i].region]);
            && (handlers[i].start <= insts[p].address < handlers[i].end <==> b in region.protectedBlocks)
            && (b in region.protectedBlocks ==> b < |g.populated.blocks| && g.populated.blocks[b] == [p])
  {
    var end :| IsCodeEnd(insts, end) && Indexes(index, handlers, end, Addresses(insts));
    var s, b := index.ranges[i], g.populated.blockOf[p];
    assert IndexedAt(s, index.entries[i], handlers[i], end, Addresses(insts));
    FaultlessIncreasing(insts, |insts|);
    assert Addresses(insts)[..|insts|] == Addresses(insts);
    BelowCodeEnd(insts, end);
    RangeExact(handlers[i], end, Addresses(insts), p);
    RefsMatchTable(drafts, handlers, index, g.populated.blockOf, g.regions, g.refs);
    if b in BlocksOf(s, g.populated.blockOf) {
      var q :| s.start <= q < s.end && g.populated.blockOf[q] == b;
      ProtectedAlone(leaders, g.populated, index, i, q);
      assert HoldsRun(g.populated.blocks[b], b, g.populated.blockOf);
      assert p in g.populated.blocks[b];
    }
  }

  /** The range of one entry strictly contains that of another. */
  predicate Encloses(outer: Handler, inner: Handler) {
    outer.start <= inner.start && inner.end <= outer.end && (outer.start < inner.start || inner.end < outer.end)
  }

  /** The regions as the table tells them. Entries share a region when they have one range, and stand in it in table
      order. Wider ranges come first and, among equals, those the table names first. */
  lemma RegionsFollowTable(handlers: seq<Handler>, index: HandlerIndex, blockOf: seq<nat>, drafts: seq<Draft>,
                           regions: seq<Region>, refs: seq<HandlerRef>, i: nat, j: nat)
    requires |handlers| == |index.ranges| == |index.entries| && Registered(drafts, handlers, index.ranges)
    requires IsRegions(drafts, index.entries, blockOf, regions, refs) && i < |handlers| && j < |handlers|
    ensures refs[i].region == refs[j].region <==> handlers[i].start == handlers[j].start && handlers[i].end == handlers[j].end
    ensures refs[i].region == refs[j].region && i < j ==> refs[i].index < refs[j].index
    ensures handlers[i].end - handlers[i].start > handlers[j].end - handlers[j].start ==> refs[i].region < refs[j].region
    ensures handlers[i].end - handlers[i].start == handlers[j].end - handlers[j].start && refs[i].index == refs[j].index == 0 && i < j ==>
              refs[i].region < refs[j].region
  {
    assert RefersTo(drafts, refs[i], i) && RefersTo(drafts, refs[j], j);
    var (a, b) := (refs[i].region, refs[j].region);
    assert DraftOk(drafts[a], handlers, index.ranges, |handlers|) && DraftOk(drafts[b], handlers, index.ranges, |handlers|);
    assert b < a ==> Before(drafts[b], drafts[a]);
  }

  /** No range that strictly contains entry `i`'s is narrower than entry `j`'s, which does. */
  predicate NarrowestAround(handlers: seq<Handler>, i: nat, j: nat)
    requires i < |handlers| && j < |handlers|
  {
    Encloses(handlers[j], handlers[i]) &&
    forall m :: 0 <= m < |handlers| && Encloses(handlers[m], handlers[i]) ==>
      handlers[j].end - handlers[j].start <= handlers[m].end - handlers[m].start
  }

  /** A region's parent is the narrowest range that strictly contains its own; there is none exactly when no range of the
      table does. */
  lemma ParentFollowsTable(handlers: seq<Handler>, index: HandlerIndex, blockOf: seq<nat>, drafts: seq<Draft>,
                           regions: seq<Region>, refs: seq<HandlerRef>, i: nat)
    requires |handlers| == |index.ranges| == |index.entries| && Registered(drafts, handlers, index.ranges)
    requires IsRegions(drafts, index.entries, blockOf, regions, refs) && i < |handlers| && refs[i].region < |regions|
    ensures match regions[refs[i].region].parent
            case None => forall j :: 0 <= j < |handlers| ==> !Encloses(handlers[j], handlers[i])
            case Some(q) =>
              q < refs[i].region && exists j :: 0 <= j < |handlers| && refs[j].region == q && NarrowestAround(handlers, i, j)
  {
    hide DraftOk;
    var k := refs[i].region;
    RegionOfEntry(handlers, index, blockOf, drafts, regions, refs, i);
    assert IsRegion(drafts, k, index.entries, blockOf, regions[k]);
    var parent := regions[k].parent;
    forall m | 0 <= m < |handlers| && Encloses(handlers[m], handlers[i])
      ensures parent.Some? && Width(drafts[parent.value]) <= handlers[m].end - handlers[m].start
    {
      RegionOfEntry(handlers, index, blockOf, drafts, regions, refs, m);
      ParentOfAll(drafts, k, parent, refs[m].region);
    }
    if parent.Some? {
      var j := EntryOf(handlers, index, blockOf, drafts, regions, refs, parent.value);
    }
  }

  lemma RegionOfEntry(handlers: seq<Handler>, index: HandlerIndex, blockOf: seq<nat>, drafts: seq<Draft>,
                      regions: seq<Region>, refs: seq<HandlerRef>, i: nat)
    requires |handlers| == |index.ranges| == |index.entries| && Registered(drafts, handlers, index.ranges)
    requires IsRegions(drafts, index.entries, blockOf, regions, refs) && i < |handlers|
    ensures refs[i].region < |drafts| && drafts[refs[i].region].start == handlers[i].start && drafts[refs[i].region].end == handlers[i].end
  {
    assert RefersTo(drafts, refs[i], i);
    assert DraftOk(drafts[refs[i].region], handlers, index.ranges, |handlers|);
  }

  lemma EntryOf(handlers: seq<Handler>, index: HandlerIndex, blockOf: seq<nat>, drafts: seq<Draft>,
                regions: seq<Region>, refs: seq<HandlerRef>, k: nat)
    returns (j: nat)
    requires |handlers| == |index.ranges| == |index.entries| && Registered(drafts, handlers, index.ranges)
    requires IsRegions(drafts, index.entries, blockOf, regions, refs) && k < |drafts|
    ensures j < |handlers| && refs[j].region == k
    ensures drafts[k].start == handlers[j].start && drafts[k].end == handlers[j].end
  {
    assert DraftOk(drafts[k], handlers, index.ranges, |handlers|);
    j := drafts[k].members[0];
    RegionOfEntry(handlers, index, blockOf, drafts, regions, refs, j);
  }
}
