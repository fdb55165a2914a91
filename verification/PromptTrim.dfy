/** Trimming a conversation to the prompt's character limit so that the kept prefix stays the same
    while the conversation grows. */
module PromptTrim {
  import opened Common
  import opened Text

  const SYSTEM := "system"
  const HUMAN := "human"
  const ASSISTANT := "assistant"
  const TOOL := "tool"

  datatype Part =
    | TextPart(text: string)
    | ReasoningPart(text: string)
    | ToolCall(function_: Option<Function>)
    | ToolResult(name: string, text: string, error: string)
    | OtherPart(text: string)

  datatype Function = Function(name: string, arguments: string)

  datatype Message = Message(role: string, parts: seq<Part>)

  function PartCost(p: Part): nat {
    match p
    case TextPart(t) => |TrimSpace(t)|
    case ReasoningPart(t) => |TrimSpace(t)|
    case ToolCall(None) => 16
    case ToolCall(Some(f)) => 16 + |TrimSpace(f.name)| + |TrimSpace(f.arguments)|
    case ToolResult(n, t, e) => 16 + |TrimSpace(n)| + |TrimSpace(t)| + |TrimSpace(e)|
    case OtherPart(t) => |TrimSpace(t)|
  }

  function PartsCost(parts: seq<Part>): nat {
    if parts == [] then 0 else PartsCost(parts[..|parts| - 1]) + PartCost(parts[|parts| - 1])
  }

  /** promptMessageCharCount; never zero, because of the fixed overhead. */
  function Cost(m: Message): (c: nat)
    ensures c > 0
  {
    |m.role| + 8 + PartsCost(m.parts)
  }

  function Total(ms: seq<Message>): nat {
    if ms == [] then 0 else Total(ms[..|ms| - 1]) + Cost(ms[|ms| - 1])
  }

  method PromptMessageCharCount(m: Message) returns (total: nat)
    ensures total == Cost(m)
  {
    hide TrimSpace;
    total := |m.role| + 8;
    for i := 0 to |m.parts|
      invariant total == |m.role| + 8 + PartsCost(m.parts[..i])
    {
      assert m.parts[..i + 1][..i] == m.parts[..i];
      match m.parts[i] {
        case TextPart(text) => total := total + |TrimSpace(text)|;
        case ReasoningPart(text) => total := total + |TrimSpace(text)|;
        case ToolCall(call) =>
          total := total + 16;
          if call.Some? {
            total := total + |TrimSpace(call.value.name)|;
            total := total + |TrimSpace(call.value.arguments)|;
          }
        case ToolResult(name, text, error) =>
          total := total + 16;
          total := total + |TrimSpace(name)|;
          total := total + |TrimSpace(text)|;
          total := total + |TrimSpace(error)|;
        case OtherPart(text) => total := total + |TrimSpace(text)|;
      }
    }
    assert m.parts[..|m.parts|] == m.parts;
  }

  method PromptMessagesCharCount(ms: seq<Message>) returns (total: nat)
    ensures total == Total(ms)
  {
    total := 0;
    for i := 0 to |ms|
      invariant total == Total(ms[..i])
    {
      assert ms[..i + 1][..i] == ms[..i];
      var cost := PromptMessageCharCount(ms[i]);
      total := total + cost;
    }
    assert ms[..|ms|] == ms;
  }

  lemma {:induction false} TotalSplits(a: seq<Message>, b: seq<Message>)
    ensures Total(a + b) == Total(a) + Total(b)
  {
    hide Cost;
    if b == [] {
      assert a + b == a;
    } else {
      var front := b[..|b| - 1];
      TotalSplits(a, front);
      assert (a + b)[..|a + b| - 1] == a + front;
    }
  }

  /** The cost of what is kept from `i` on. */
  function SuffixCost(ms: seq<Message>, i: nat): nat
    requires i <= |ms|
  {
    Total(ms[i..])
  }

  lemma SuffixStep(ms: seq<Message>, i: nat)
    requires i < |ms|
    ensures SuffixCost(ms, i) == Cost(ms[i]) + SuffixCost(ms, i + 1)
  {
    assert ms[i..] == [ms[i]] + ms[i + 1..];
    TotalSplits([ms[i]], ms[i + 1..]);
    assert Total([ms[i]]) == Cost(ms[i]) by {
      assert [ms[i]][..0] == [];
    }
  }

  lemma {:induction false} SuffixShrinks(ms: seq<Message>, i: nat, j: nat)
    requires i <= j <= |ms|
    ensures SuffixCost(ms, j) <= SuffixCost(ms, i)
    ensures i < j ==> SuffixCost(ms, j) < SuffixCost(ms, i)
    decreases j - i
  {
    if i < j {
      SuffixStep(ms, i);
      SuffixShrinks(ms, i + 1, j);
    }
  }

  // ----- boundaries -----

  predicate HasToolCalls(m: Message) {
    exists i :: 0 <= i < |m.parts| && m.parts[i].ToolCall?
  }

  /** isPromptTrimBoundary */
  predicate IsBoundary(body: seq<Message>, i: nat) {
    0 < i < |body| && body[i].role != TOOL && !HasToolCalls(body[i - 1])
  }

  method MessageHasToolCalls(m: Message) returns (found: bool)
    ensures found <==> HasToolCalls(m)
  {
    for i := 0 to |m.parts|
      invariant forall k :: 0 <= k < i ==> !m.parts[k].ToolCall?
    {
      if m.parts[i].ToolCall? {
        return true;
      }
    }
    return false;
  }

  method IsPromptTrimBoundary(body: seq<Message>, index: nat) returns (ok: bool)
    ensures ok <==> IsBoundary(body, index)
  {
    hide HasToolCalls;
    if index <= 0 || index >= |body| {
      return false;
    }
    var calls := MessageHasToolCalls(body[index - 1]);
    return body[index].role != TOOL && !calls;
  }

  /** The boundaries found so far, and what has piled up since the last one. */
  datatype Segments = Segments(boundaries: seq<nat>, accumulated: nat)

  function NextSegment(s: Segments, body: seq<Message>, i: nat, segment: nat): Segments
    requires i < |body|
  {
    if s.accumulated >= segment && IsBoundary(body, i) then Segments(s.boundaries + [i], Cost(body[i]))
    else Segments(s.boundaries, s.accumulated + Cost(body[i]))
  }

  /** What the first `n` messages give. */
  function Scan(body: seq<Message>, n: nat, segment: nat): Segments
    requires n <= |body|
  {
    if n == 0 then Segments([0], 0) else NextSegment(Scan(body, n - 1, segment), body, n - 1, segment)
  }

  function Boundaries(body: seq<Message>, segment: nat): seq<nat> {
    Scan(body, |body|, segment).boundaries
  }

  /** Ascending indices into the body, zero first. */
  ghost predicate Ascending(boundaries: seq<nat>, n: nat) {
    && boundaries != [] && boundaries[0] == 0
    && (forall i, j :: 0 <= i < j < |boundaries| ==> boundaries[i] < boundaries[j])
    && forall i :: 0 < i < |boundaries| ==> boundaries[i] < n
  }

  ghost predicate AllBoundaries(boundaries: seq<nat>, body: seq<Message>) {
    forall i :: 0 < i < |boundaries| ==> IsBoundary(body, boundaries[i])
  }

  lemma {:induction false} ScanIsAscending(body: seq<Message>, n: nat, segment: nat)
    requires n <= |body|
    ensures Ascending(Scan(body, n, segment).boundaries, n)
  {
    hide Cost;
    if n > 0 {
      ScanIsAscending(body, n - 1, segment);
    }
  }

  lemma {:induction false} ScanFindsBoundaries(body: seq<Message>, n: nat, segment: nat)
    requires n <= |body|
    ensures AllBoundaries(Scan(body, n, segment).boundaries, body)
  {
    hide Cost, IsBoundary;
    if n > 0 {
      ScanFindsBoundaries(body, n - 1, segment);
    }
  }

  /** Each boundary after the first has paid for itself: at least one segment lies before it. */
  lemma {:induction false} SegmentsArePaid(body: seq<Message>, n: nat, segment: nat)
    requires n <= |body|
    ensures var s := Scan(body, n, segment);
            |s.boundaries| >= 1 && (|s.boundaries| - 1) * segment + s.accumulated <= Total(body[..n])
  {
    hide Cost, IsBoundary;
    if n > 0 {
      SegmentsArePaid(body, n - 1, segment);
      assert body[..n][..n - 1] == body[..n - 1];
      var s := Scan(body, n - 1, segment);
      assert |s.boundaries| * segment == (|s.boundaries| - 1) * segment + segment;
    }
  }

  /** Messages that arrive later do not move the boundaries found before. */
  lemma {:induction false} ScanOfPrefix(body: seq<Message>, more: seq<Message>, n: nat, segment: nat)
    requires n <= |body| && body <= more
    ensures Scan(more, n, segment) == Scan(body, n, segment)
  {
    hide Cost, HasToolCalls;
    if n > 0 {
      ScanOfPrefix(body, more, n - 1, segment);
    }
  }

  lemma {:induction false} ScanGrows(body: seq<Message>, n: nat, m: nat, segment: nat)
    requires n <= m <= |body|
    ensures Scan(body, n, segment).boundaries <= Scan(body, m, segment).boundaries
    decreases m - n
  {
    hide Cost, IsBoundary;
    if n < m {
      ScanGrows(body, n, m - 1, segment);
    }
  }

  lemma BoundariesOnlyGrow(body: seq<Message>, more: seq<Message>, segment: nat)
    requires body <= more
    ensures Boundaries(body, segment) <= Boundaries(more, segment)
  {
    ScanOfPrefix(body, more, |body|, segment);
    ScanGrows(more, |body|, |more|, segment);
  }

  // ----- the stable start -----

  function Segment(budget: int): nat {
    if budget / 2 >= 1 then budget / 2 else 1
  }

  /** The first of the boundaries from `k` on whose suffix fits, as an index into the boundaries. */
  function FirstFit(body: seq<Message>, boundaries: seq<nat>, k: nat, budget: int): (r: Option<nat>)
    requires k <= |boundaries| && forall i :: 0 <= i < |boundaries| ==> boundaries[i] <= |body|
    ensures r.Some? ==> k <= r.value < |boundaries| && SuffixCost(body, boundaries[r.value]) <= budget
    ensures r.Some? ==> forall i :: k <= i < r.value ==> SuffixCost(body, boundaries[i]) > budget
    ensures r.None? ==> forall i :: k <= i < |boundaries| ==> SuffixCost(body, boundaries[i]) > budget
    decreases |boundaries| - k
  {
    if k == |boundaries| then None
    else if SuffixCost(body, boundaries[k]) <= budget then Some(k)
    else FirstFit(body, boundaries, k + 1, budget)
  }

  /** Which boundary the prompt starts at, if one fits. */
  function StableIndex(body: seq<Message>, budget: int): Option<nat> {
    if budget <= 0 then None
    else
      ScanIsAscending(body, |body|, Segment(budget));
      FirstFit(body, Boundaries(body, Segment(budget)), 0, budget)
  }

  function StableStart(body: seq<Message>, budget: int): (r: Option<nat>)
    ensures r.Some? ==> r.value <= |body|
  {
    match StableIndex(body, budget)
    case None => None
    case Some(k) => ScanIsAscending(body, |body|, Segment(budget)); Some(Boundaries(body, Segment(budget))[k])
  }

  /** The first loop: a boundary wherever enough has piled up and a cut is allowed. */
  method FindBoundaries(body: seq<Message>, segment: nat) returns (boundaries: seq<nat>)
    ensures boundaries == Boundaries(body, segment)
  {
    hide Cost, IsBoundary;
    var accumulated: nat;
    boundaries, accumulated := [0], 0;
    for i := 0 to |body|
      invariant Segments(boundaries, accumulated) == Scan(body, i, segment)
    {
      var boundary := IsPromptTrimBoundary(body, i);
      if accumulated >= segment && boundary {
        boundaries := boundaries + [i];
        accumulated := 0;
      }
      var cost := PromptMessageCharCount(body[i]);
      accumulated := accumulated + cost;
    }
  }

  method StablePromptTrimStart(body: seq<Message>, budget: int) returns (start: nat, ok: bool)
    ensures StableStart(body, budget) == if ok then Some(start) else None
  {
    hide Scan, SuffixCost, Ascending;
    if budget <= 0 {
      return 0, false;
    }
    var segment := if budget / 2 > 1 then budget / 2 else 1;
    var boundaries := FindBoundaries(body, segment);
    BoundariesInRange(body, segment);
    var suffix := SuffixCosts(body);
    for k := 0 to |boundaries|
      invariant FirstFit(body, boundaries, k, budget) == FirstFit(body, boundaries, 0, budget)
    {
      if suffix[boundaries[k]] <= budget {
        return boundaries[k], true;
      }
    }
    return 0, false;
  }

  lemma BoundariesInRange(body: seq<Message>, segment: nat)
    ensures forall i :: 0 <= i < |Boundaries(body, segment)| ==> Boundaries(body, segment)[i] <= |body|
  {
    hide Scan;
    ScanIsAscending(body, |body|, segment);
  }

  /** The suffix sums, filled from the back. */
  method SuffixCosts(body: seq<Message>) returns (suffix: array<nat>)
    ensures fresh(suffix) && suffix.Length == |body| + 1
    ensures forall i :: 0 <= i <= |body| ==> suffix[i] == SuffixCost(body, i)
  {
    hide Cost, Total, SuffixCost;
    suffix := new nat[|body| + 1];
    assert SuffixCost(body, |body|) == 0 by { EmptySuffix(body); }
    suffix[|body|] := 0;
    for i := |body| downto 0
      invariant forall j :: i <= j <= |body| ==> suffix[j] == SuffixCost(body, j)
    {
      SuffixStep(body, i);
      var cost := PromptMessageCharCount(body[i]);
      suffix[i] := suffix[i + 1] + cost;
    }
  }

  lemma EmptySuffix(body: seq<Message>)
    ensures SuffixCost(body, |body|) == 0
  {
  }

  // ----- stability -----

  lemma SuffixGrows(body: seq<Message>, more: seq<Message>, i: nat)
    requires body <= more && i <= |body|
    ensures SuffixCost(body, i) <= SuffixCost(more, i)
  {
    assert more[i..] == body[i..] + more[|body|..];
    TotalSplits(body[i..], more[|body|..]);
  }

  /** The chosen boundary only moves on, never back, while the conversation grows. */
  lemma StableIndexGrows(body: seq<Message>, more: seq<Message>, budget: int)
    requires body <= more && StableIndex(body, budget).Some? && StableIndex(more, budget).Some?
    ensures StableIndex(body, budget).value <= StableIndex(more, budget).value
    ensures StableStart(body, budget).value <= StableStart(more, budget).value
    ensures StableIndex(body, budget).value < StableIndex(more, budget).value ==> StableStart(body, budget).value < StableStart(more, budget).value
  {
    hide Total, Scan;
    var segment := Segment(budget);
    var old_, new_ := Boundaries(body, segment), Boundaries(more, segment);
    var k, l := StableIndex(body, budget).value, StableIndex(more, budget).value;
    BoundariesOnlyGrow(body, more, segment);
    ScanIsAscending(body, |body|, segment);
    ScanIsAscending(more, |more|, segment);
    if l < k {
      SuffixGrows(body, more, old_[l]);
    }
  }

  ghost predicate IsGrowth(bodies: seq<seq<Message>>, budget: int) {
    && (forall i :: 0 <= i < |bodies| ==> StableIndex(bodies[i], budget).Some?)
    && forall i, j :: 0 <= i && j == i + 1 && j < |bodies| ==> bodies[i] <= bodies[j]
  }

  /** How often the start changes, that is, how often the kept prefix is given up. */
  ghost function Jumps(bodies: seq<seq<Message>>, budget: int): nat {
    if |bodies| < 2 then 0
    else
      Jumps(bodies[..|bodies| - 1], budget)
      + if StableStart(bodies[|bodies| - 2], budget) == StableStart(bodies[|bodies| - 1], budget) then 0 else 1
  }

  lemma {:induction false} JumpsAreBoundaries(bodies: seq<seq<Message>>, budget: int)
    requires IsGrowth(bodies, budget) && bodies != []
    ensures Jumps(bodies, budget) <= StableIndex(bodies[|bodies| - 1], budget).value
  {
    hide StableIndex;
    var n := |bodies|;
    if n > 1 {
      var front := bodies[..n - 1];
      assert forall i :: 0 <= i < n - 1 ==> front[i] == bodies[i];
      JumpsAreBoundaries(front, budget);
      var last, current := bodies[n - 2], bodies[n - 1];
      assert last <= current;
      StableIndexGrows(last, current, budget);
      if StableIndex(last, budget) == StableIndex(current, budget) {
        SameIndexSameStart(last, current, budget);
      }
    }
  }

  lemma SameIndexSameStart(body: seq<Message>, more: seq<Message>, budget: int)
    requires body <= more && StableIndex(body, budget).Some? && StableIndex(more, budget) == StableIndex(body, budget)
    ensures StableStart(more, budget) == StableStart(body, budget)
  {
    BoundariesOnlyGrow(body, more, Segment(budget));
  }

  /** The amortised bound: however a conversation grows, each change of the kept prefix is paid for by a
      segment, about half the budget, of new messages. */
  lemma JumpsArePaid(bodies: seq<seq<Message>>, budget: int)
    requires IsGrowth(bodies, budget) && bodies != []
    ensures Jumps(bodies, budget) * Segment(budget) <= Total(bodies[|bodies| - 1])
  {
    hide Total, Scan;
    var last, segment := bodies[|bodies| - 1], Segment(budget);
    JumpsAreBoundaries(bodies, budget);
    SegmentsArePaid(last, |last|, segment);
    assert last[..|last|] == last;
    var count := |Boundaries(last, segment)| - 1;
    Product(Jumps(bodies, budget), count, segment);
  }

  lemma Product(a: nat, b: nat, c: nat)
    requires a <= b
    ensures a * c <= b * c
  {
  }

  // ----- the fallback -----

  /** A place where neither side belongs to a tool exchange that goes on across it. */
  predicate IsCleanCut(ms: seq<Message>, i: nat) {
    i == 0 || i >= |ms| || (ms[i].role != TOOL && ms[i - 1].role != TOOL && !HasToolCalls(ms[i - 1]))
  }

  function Adjust(ms: seq<Message>, start: nat): (r: nat)
    ensures r <= start && IsCleanCut(ms, r)
    ensures forall i :: r < i <= start ==> !IsCleanCut(ms, i)
  {
    if IsCleanCut(ms, start) then start else Adjust(ms, start - 1)
  }

  method AdjustReducerTailStart(ms: seq<Message>, start: nat) returns (r: nat)
    ensures r == Adjust(ms, start)
  {
    r := start;
    if r == 0 || r >= |ms| {
      return;
    }
    while r > 0
      invariant r <= start < |ms| && Adjust(ms, r) == Adjust(ms, start)
    {
      var current, previous := ms[r], ms[r - 1];
      var calls := MessageHasToolCalls(previous);
      if current.role == TOOL || previous.role == TOOL || calls {
        r := r - 1;
        continue;
      }
      break;
    }
  }

  /** The longest suffix that fits into `room`. */
  function LongestFit(body: seq<Message>, i: nat, room: int): (r: nat)
    requires i <= |body| && room >= 0
    ensures i <= r <= |body| && SuffixCost(body, r) <= room
    ensures forall j :: i <= j < r ==> SuffixCost(body, j) > room
    decreases |body| - i
  {
    if i == |body| || SuffixCost(body, i) <= room then i else LongestFit(body, i + 1, room)
  }

  /** Where the fallback starts: with the longest suffix that fits, or, when not even the last message
      does, with that message and the tool exchange it belongs to, if that fits without it. */
  function FallbackStart(body: seq<Message>, used: nat, maxChars: int): nat
    requires body != []
  {
    var last := |body| - 1;
    if used + Cost(body[last]) <= maxChars then LongestFit(body, 0, maxChars - used)
    else
      var adjusted := Adjust(body, last);
      if used + Total(body[adjusted..last]) <= maxChars then adjusted else last
  }

  /** The loop of the fallback: collect messages from the back while they fit. */
  method TailThatFits(body: seq<Message>, used: nat, maxChars: int) returns (start: nat, total: nat)
    requires body != []
    ensures start < |body|
    ensures used + Cost(body[|body| - 1]) <= maxChars ==>
              start == LongestFit(body, 0, maxChars - used) && total == used + SuffixCost(body, start)
    ensures used + Cost(body[|body| - 1]) > maxChars ==> start == |body| - 1 && total == used
  {
    hide Cost, Total, SuffixCost;
    start, total := |body|, used;
    EmptySuffix(body);
    var i := |body|;
    while i > 0
      invariant i == start <= |body| && total == used + SuffixCost(body, start)
      invariant start < |body| ==> total <= maxChars && used + Cost(body[|body| - 1]) <= maxChars
    {
      i := i - 1;
      SuffixStep(body, i);
      var cost := PromptMessageCharCount(body[i]);
      if total + cost > maxChars {
        if start < |body| {
          TailIsLongest(body, start, maxChars - used);
        } else {
          start := i;
        }
        return;
      }
      if start == |body| {
        assert i == |body| - 1;
      }
      total, start := total + cost, i;
    }
    TailIsLongest(body, 0, maxChars - used);
  }

  lemma TailIsLongest(body: seq<Message>, start: nat, room: int)
    requires start <= |body| && room >= 0 && SuffixCost(body, start) <= room
    requires start > 0 ==> SuffixCost(body, start - 1) > room
    ensures LongestFit(body, 0, room) == start
  {
    var r := LongestFit(body, 0, room);
    if r < start {
      SuffixShrinks(body, r, start - 1);
    }
  }

  method FittingPromptTailStart(body: seq<Message>, used: nat, maxChars: int) returns (start: nat)
    requires body != []
    ensures start == FallbackStart(body, used, maxChars)
  {
    hide Cost, SuffixCost, LongestFit, Total;
    var total;
    start, total := TailThatFits(body, used, maxChars);
    if start > 0 {
      var adjusted := AdjustReducerTailStart(body, start);
      var extra := PromptMessagesCharCount(body[adjusted..start]);
      if used + Cost(body[|body| - 1]) <= maxChars {
        NoRoomForMore(body, adjusted, start, maxChars - used);
      }
      if total + extra <= maxChars {
        start := adjusted;
      }
    } else {
      assert Adjust(body, 0) == 0;
    }
  }

  /** The longest suffix that fits cannot be extended, so moving its start to a clean cut never happens. */
  lemma NoRoomForMore(body: seq<Message>, adjusted: nat, start: nat, room: int)
    requires adjusted <= start <= |body| && room >= 0 && start == LongestFit(body, 0, room)
    ensures SuffixCost(body, start) + Total(body[adjusted..start]) == SuffixCost(body, adjusted)
    ensures adjusted < start ==> SuffixCost(body, adjusted) > room
  {
    assert body[adjusted..] == body[adjusted..start] + body[start..];
    TotalSplits(body[adjusted..start], body[start..]);
  }

  // ----- the whole prompt -----

  function LeadingSystems(ms: seq<Message>): (n: nat)
    ensures n <= |ms| && (forall i :: 0 <= i < n ==> ms[i].role == SYSTEM)
    ensures n < |ms| ==> ms[n].role != SYSTEM
  {
    if ms == [] || ms[0].role != SYSTEM then 0 else 1 + LeadingSystems(ms[1..])
  }

  /** The position of the first human message, or the length. */
  function FirstHuman(ms: seq<Message>): (n: nat)
    ensures n <= |ms| && (forall i :: 0 <= i < n ==> ms[i].role != HUMAN)
    ensures n < |ms| ==> ms[n].role == HUMAN
  {
    if ms == [] || ms[0].role == HUMAN then 0 else 1 + FirstHuman(ms[1..])
  }

  /** What is always kept, and what is trimmed: the first human message moves to the kept part. */
  datatype Parted = Parted(prefix: seq<Message>, body: seq<Message>)

  function PartMessages(ms: seq<Message>, maxChars: int): Parted {
    var n := LeadingSystems(ms);
    var lead := if Total(ms[..n]) > maxChars && n > 1 then ms[..1] else ms[..n];
    var rest := ms[n..];
    var h := FirstHuman(rest);
    if h < |rest| then Parted(lead + [rest[h]], rest[..h] + rest[h + 1..]) else Parted(lead, rest)
  }

  function BodyStart(body: seq<Message>, used: nat, maxChars: int): nat
    requires body != []
  {
    match StableStart(body, maxChars - used)
    case Some(start) => start
    case None => FallbackStart(body, used, maxChars)
  }

  predicate NeedsTrim(ms: seq<Message>, maxChars: int) {
    ms != [] && maxChars > 0 && Total(ms) > maxChars
  }

  lemma FallbackInRange(body: seq<Message>, used: nat, maxChars: int)
    requires body != []
    ensures FallbackStart(body, used, maxChars) <= |body|
  {
  }

  function Trim(ms: seq<Message>, maxChars: int): seq<Message> {
    if !NeedsTrim(ms, maxChars) then ms
    else
      var p := PartMessages(ms, maxChars);
      if p.body == [] then p.prefix
      else
        FallbackInRange(p.body, Total(p.prefix), maxChars);
        p.prefix + p.body[BodyStart(p.body, Total(p.prefix), maxChars)..]
  }

  method TrimLLMPromptMessages(ms: seq<Message>, maxChars: int) returns (kept: seq<Message>)
    ensures kept == Trim(ms, maxChars)
  {
    hide Total, StableStart, FallbackStart, PartMessages;
    if |ms| == 0 || maxChars <= 0 {
      return ms;
    }
    var total := PromptMessagesCharCount(ms);
    if total <= maxChars {
      return ms;
    }
    var prefix, body := PinMessages(ms, maxChars);
    var used := PromptMessagesCharCount(prefix);
    if |body| == 0 {
      return prefix;
    }
    var start, ok := StablePromptTrimStart(body, maxChars - used);
    if !ok {
      start := FittingPromptTailStart(body, used, maxChars);
    }
    FallbackInRange(body, used, maxChars);
    kept := prefix + body[start..];
  }

  /** The first half of the trim: leading system messages, first human message, and the rest. */
  method PinMessages(ms: seq<Message>, maxChars: int) returns (prefix: seq<Message>, body: seq<Message>)
    ensures PartMessages(ms, maxChars) == Parted(prefix, body)
  {
    hide Total, LeadingSystems, FirstHuman;
    var n := SplitLeadingSystemMessages(ms);
    prefix, body := ms[..n], ms[n..];
    var lead := PromptMessagesCharCount(prefix);
    if lead > maxChars && |prefix| > 1 {
      prefix := prefix[..1];
    }
    var h := FindFirstHuman(body);
    if h < |body| {
      prefix, body := prefix + [body[h]], body[..h] + body[h + 1..];
    }
  }

  method SplitLeadingSystemMessages(ms: seq<Message>) returns (index: nat)
    ensures index == LeadingSystems(ms)
  {
    index := 0;
    while index < |ms| && ms[index].role == SYSTEM
      invariant index <= |ms| && forall i :: 0 <= i < index ==> ms[i].role == SYSTEM
    {
      index := index + 1;
    }
  }

  method FindFirstHuman(ms: seq<Message>) returns (index: nat)
    ensures index == FirstHuman(ms)
  {
    index := 0;
    while index < |ms|
      invariant index <= |ms| && forall i :: 0 <= i < index ==> ms[i].role != HUMAN
    {
      if ms[index].role == HUMAN {
        return;
      }
      index := index + 1;
    }
  }

  /** Whether the prompt starts at a stable boundary. */
  predicate IsStable(ms: seq<Message>, maxChars: int) {
    var p := PartMessages(ms, maxChars);
    p.body != [] && StableStart(p.body, maxChars - Total(p.prefix)).Some?
  }

  lemma StableSuffixFits(body: seq<Message>, budget: int)
    requires StableStart(body, budget).Some?
    ensures SuffixCost(body, StableStart(body, budget).value) <= budget
  {
    hide Scan, Total;
  }

  /** A prompt that starts at a stable boundary keeps within the limit. */
  lemma StablePromptFits(ms: seq<Message>, maxChars: int)
    requires NeedsTrim(ms, maxChars) && IsStable(ms, maxChars)
    ensures Total(Trim(ms, maxChars)) <= maxChars
  {
    hide PartMessages, StableStart, Total, FallbackStart;
    var p := PartMessages(ms, maxChars);
    var start := StableStart(p.body, maxChars - Total(p.prefix)).value;
    TotalSplits(p.prefix, p.body[start..]);
    StableSuffixFits(p.body, maxChars - Total(p.prefix));
  }

  // ----- growing conversations -----

  predicate HasHuman(ms: seq<Message>) {
    exists i :: 0 <= i < |ms| && ms[i].role == HUMAN
  }

  lemma SystemsOfPrefix(ms: seq<Message>, more: seq<Message>)
    requires ms <= more && LeadingSystems(ms) < |ms|
    ensures LeadingSystems(more) == LeadingSystems(ms)
  {
    hide LeadingSystems;
    var n := LeadingSystems(ms);
    assert more[n] == ms[n];
    assert forall i :: 0 <= i < n ==> more[i] == ms[i];
  }

  lemma HumanOfPrefix(ms: seq<Message>, more: seq<Message>)
    requires ms <= more && FirstHuman(ms) < |ms|
    ensures FirstHuman(more) == FirstHuman(ms)
  {
    hide FirstHuman;
    var n := FirstHuman(ms);
    assert more[n] == ms[n];
    assert forall i :: 0 <= i < n ==> more[i] == ms[i];
  }

  lemma HumanComesAfterSystems(ms: seq<Message>)
    requires HasHuman(ms)
    ensures LeadingSystems(ms) < |ms| && FirstHuman(ms[LeadingSystems(ms)..]) < |ms[LeadingSystems(ms)..]|
  {
    hide LeadingSystems, FirstHuman;
    var n := LeadingSystems(ms);
    var i :| 0 <= i < |ms| && ms[i].role == HUMAN;
    assert ms[n..][i - n].role == HUMAN;
  }

  lemma TakenOutOfPrefix(rest: seq<Message>, longer: seq<Message>, h: nat)
    requires rest <= longer && h < |rest|
    ensures rest[..h] + rest[h + 1..] <= longer[..h] + longer[h + 1..]
  {
    assert longer == rest + longer[|rest|..];
  }

  /** Adding messages to a conversation that has its first human message leaves the kept part alone. */
  lemma PartingIsStable(ms: seq<Message>, more: seq<Message>, maxChars: int)
    requires ms <= more && HasHuman(ms)
    ensures var p, q := PartMessages(ms, maxChars), PartMessages(more, maxChars);
            q.prefix == p.prefix && p.body <= q.body
  {
    hide Total, LeadingSystems, FirstHuman;
    var n := LeadingSystems(ms);
    HumanComesAfterSystems(ms);
    SystemsOfPrefix(ms, more);
    var rest, longer := ms[n..], more[n..];
    assert rest <= longer && more[..n] == ms[..n];
    HumanOfPrefix(rest, longer);
    var h := FirstHuman(rest);
    assert longer[h] == rest[h];
    TakenOutOfPrefix(rest, longer, h);
  }

  lemma StillNeedsTrim(ms: seq<Message>, more: seq<Message>, maxChars: int)
    requires ms <= more && NeedsTrim(ms, maxChars)
    ensures NeedsTrim(more, maxChars)
  {
    assert more == ms + more[|ms|..];
    TotalSplits(ms, more[|ms|..]);
  }

  /** The first human message is there already, or there is none yet. */
  predicate KeepsFirstHuman(ms: seq<Message>, more: seq<Message>) {
    HasHuman(ms) || !HasHuman(more)
  }

  /** What new messages do to the kept part: nothing, or a first human message joins it at the end. */
  lemma PartingGrows(ms: seq<Message>, more: seq<Message>, maxChars: int)
    requires ms <= more && PartMessages(ms, maxChars).body != []
    ensures var p, q := PartMessages(ms, maxChars), PartMessages(more, maxChars);
            && (KeepsFirstHuman(ms, more) ==> q.prefix == p.prefix && p.body <= q.body)
            && (!KeepsFirstHuman(ms, more) ==>
                  && p.prefix < q.prefix && q.prefix[|p.prefix|].role == HUMAN
                  && forall i :: 0 <= i < |p.body| ==> p.body[i].role != HUMAN)
  {
    if HasHuman(ms) {
      PartingIsStable(ms, more, maxChars);
    } else {
      PartingBeforeHuman(ms, more, maxChars);
    }
  }

  lemma PartingBeforeHuman(ms: seq<Message>, more: seq<Message>, maxChars: int)
    requires ms <= more && !HasHuman(ms) && PartMessages(ms, maxChars).body != []
    ensures var p, q := PartMessages(ms, maxChars), PartMessages(more, maxChars);
            && (forall i :: 0 <= i < |p.body| ==> p.body[i].role != HUMAN)
            && (if HasHuman(more) then p.prefix < q.prefix && q.prefix[|p.prefix|].role == HUMAN
                else q.prefix == p.prefix && p.body <= q.body)
  {
    hide Total, LeadingSystems, FirstHuman;
    var n := LeadingSystems(ms);
    assert FirstHuman(ms[n..]) == |ms[n..]|;
    SystemsOfPrefix(ms, more);
    assert more[..n] == ms[..n] && ms[n..] <= more[n..];
    if HasHuman(more) {
      HumanComesAfterSystems(more);
    } else {
      assert FirstHuman(more[n..]) == |more[n..]|;
    }
  }

  /** Prompt stability: over the limit, the stable start only ever jumps forward, and while it stays the
      next prompt repeats the last one and goes on. Both hold exactly as long as the new messages do not
      bring the first human message: that one moves in front of everything that was kept. */
  lemma PromptStaysPrefix(ms: seq<Message>, more: seq<Message>, maxChars: int)
    requires ms <= more && NeedsTrim(ms, maxChars) && IsStable(ms, maxChars) && IsStable(more, maxChars)
    ensures var p, q := PartMessages(ms, maxChars), PartMessages(more, maxChars);
            var before, after := BodyStart(p.body, Total(p.prefix), maxChars), BodyStart(q.body, Total(q.prefix), maxChars);
            && (KeepsFirstHuman(ms, more) ==> before <= after)
            && (before == after ==> (Trim(ms, maxChars) <= Trim(more, maxChars) <==> KeepsFirstHuman(ms, more)))
            && (!KeepsFirstHuman(ms, more) ==> !(Trim(ms, maxChars) <= Trim(more, maxChars)))
  {
    hide PartMessages, StableIndex, StableStart, Total, FallbackStart, NeedsTrim, KeepsFirstHuman;
    PartingGrows(ms, more, maxChars);
    StillNeedsTrim(ms, more, maxChars);
    var p, q := PartMessages(ms, maxChars), PartMessages(more, maxChars);
    var budget := maxChars - Total(p.prefix);
    if KeepsFirstHuman(ms, more) {
      StartIsIndexed(p.body, budget);
      StartIsIndexed(q.body, budget);
      StableIndexGrows(p.body, q.body, budget);
    } else {
      var start := StableStart(p.body, budget).value;
      StableStartInside(p.body, budget);
      assert Trim(ms, maxChars)[|p.prefix|] == p.body[start];
      assert Trim(more, maxChars)[|p.prefix|] == q.prefix[|p.prefix|];
    }
  }

  /** Three short answers and a question after them, under a limit of forty: the case occurs. */
  lemma LateHumanOccurs()
    ensures var answer, question := Message(ASSISTANT, []), Message(HUMAN, []);
            var ms := [answer, answer, answer];
            && !KeepsFirstHuman(ms, ms + [question]) && NeedsTrim(ms, 40)
            && IsStable(ms, 40) && IsStable(ms + [question], 40)
  {
    var answer, question := Message(ASSISTANT, []), Message(HUMAN, []);
    assert Cost(answer) == 17 && Cost(question) == 13;
    hide Cost;
    LateHumanAfterAnswers(answer, question);
  }

  lemma LateHumanAfterAnswers(answer: Message, question: Message)
    requires Cost(answer) == 17 && answer.role == ASSISTANT && !HasToolCalls(answer)
    requires Cost(question) == 13 && question.role == HUMAN
    ensures var ms := [answer, answer, answer];
            && !KeepsFirstHuman(ms, ms + [question]) && NeedsTrim(ms, 40)
            && IsStable(ms, 40) && IsStable(ms + [question], 40)
  {
    hide Cost, StableStart, PartMessages, Total;
    var ms := [answer, answer, answer];
    assert (ms + [question])[3].role == HUMAN;
    NothingPinned(ms, 40);
    LateHumanIsPinned(ms, question, 40);
    SmallTotals(answer, question);
    assert [] + [question] == [question];
    AnswersTrim(answer, 40);
    AnswersTrim(answer, 27);
  }

  lemma SmallTotals(answer: Message, question: Message)
    ensures Total([]) == 0 && Total([question]) == Cost(question)
    ensures Total([answer, answer, answer]) == 3 * Cost(answer)
  {
    hide Cost;
    var ms := [answer, answer, answer];
    EmptySuffix(ms);
    SuffixStep(ms, 2);
    SuffixStep(ms, 1);
    SuffixStep(ms, 0);
    assert ms[0..] == ms && ms[3..] == [];
    assert [question][..0] == [];
  }

  lemma NothingPinned(ms: seq<Message>, maxChars: int)
    requires ms != [] && ms[0].role != SYSTEM && !HasHuman(ms)
    ensures PartMessages(ms, maxChars) == Parted([], ms)
  {
    hide Total, LeadingSystems, FirstHuman;
    assert LeadingSystems(ms) == 0;
    assert ms[..0] == [] && ms[0..] == ms;
    assert FirstHuman(ms) == |ms|;
  }

  lemma AnswersTrim(answer: Message, budget: int)
    requires Cost(answer) == 17 && 17 <= budget <= 68 && answer.role != TOOL && !HasToolCalls(answer)
    ensures StableStart([answer, answer, answer], budget).Some?
  {
    hide Cost, HasToolCalls;
    var ms, segment := [answer, answer, answer], Segment(budget);
    assert IsBoundary(ms, 1) && IsBoundary(ms, 2) && !IsBoundary(ms, 0);
    var one, two, three := Scan(ms, 1, segment), Scan(ms, 2, segment), Scan(ms, 3, segment);
    assert Scan(ms, 0, segment) == Segments([0], 0);
    assert ms[0] == answer && ms[1] == answer && ms[2] == answer;
    assert one == NextSegment(Segments([0], 0), ms, 0, segment);
    assert two == NextSegment(one, ms, 1, segment);
    assert three == NextSegment(two, ms, 2, segment);
    assert two.accumulated >= segment;
    assert three.boundaries == two.boundaries + [2];
    EmptySuffix(ms);
    SuffixStep(ms, 2);
    assert Boundaries(ms, segment)[|two.boundaries|] == 2;
  }

  lemma LateHumanIsPinned(ms: seq<Message>, human: Message, maxChars: int)
    requires !HasHuman(ms) && human.role == HUMAN && PartMessages(ms, maxChars).body != []
    ensures var p, q := PartMessages(ms, maxChars), PartMessages(ms + [human], maxChars);
            && q == Parted(p.prefix + [human], p.body)
            && forall i :: 0 <= i < |p.body| ==> p.body[i].role != HUMAN
  {
    hide Total, LeadingSystems, FirstHuman;
    var more, n := ms + [human], LeadingSystems(ms);
    assert FirstHuman(ms[n..]) == |ms[n..]|;
    SystemsOfPrefix(ms, more);
    var rest := ms[n..];
    assert more[..n] == ms[..n] && more[n..] == rest + [human];
    assert forall i :: 0 <= i < |rest| ==> rest[i] == ms[n + i] && rest[i].role != HUMAN;
    var longer := rest + [human];
    assert forall i :: 0 <= i < |rest| ==> longer[i] == rest[i];
    assert longer[|rest|] == human;
    assert FirstHuman(longer) == |rest|;
    assert (rest + [human])[..|rest|] + (rest + [human])[|rest| + 1..] == rest;
  }

  lemma StableStartInside(body: seq<Message>, budget: int)
    requires body != [] && StableStart(body, budget).Some?
    ensures StableStart(body, budget).value < |body|
  {
    hide Total, Scan, SuffixCost;
    ScanIsAscending(body, |body|, Segment(budget));
  }

  lemma StartIsIndexed(body: seq<Message>, budget: int)
    ensures StableStart(body, budget).Some? <==> StableIndex(body, budget).Some?
  {
  }

  // ----- tool results and their calls -----

  predicate IsCall(m: Message) {
    m.role == ASSISTANT && HasToolCalls(m)
  }

  predicate IsPairedAt(ms: seq<Message>, j: nat)
    requires j < |ms|
  {
    ms[j].role == TOOL ==> j > 0 && (ms[j - 1].role == TOOL || IsCall(ms[j - 1]))
  }

  /** Every tool message directly follows the assistant message that asked for it or another tool message. */
  predicate IsPaired(ms: seq<Message>) {
    forall j :: 0 <= j < |ms| ==> IsPairedAt(ms, j)
  }

  lemma {:induction false} ResultHasCall(ms: seq<Message>, j: nat) returns (i: nat)
    requires IsPaired(ms) && j < |ms| && ms[j].role == TOOL
    ensures i < j && IsCall(ms[i]) && forall k :: i < k <= j ==> ms[k].role == TOOL
  {
    assert IsPairedAt(ms, j);
    if ms[j - 1].role == TOOL {
      i := ResultHasCall(ms, j - 1);
    } else {
      i := j - 1;
    }
  }

  /** The part that is trimmed is still paired: what is taken out of it is no call. */
  lemma BodyIsPaired(ms: seq<Message>, maxChars: int)
    requires IsPaired(ms)
    ensures var p := PartMessages(ms, maxChars);
            IsPaired(p.body) && forall i :: 0 <= i < |p.prefix| ==> p.prefix[i].role != TOOL && !IsCall(p.prefix[i])
  {
    hide Total, LeadingSystems, FirstHuman, HasToolCalls;
    var n, p := LeadingSystems(ms), PartMessages(ms, maxChars);
    var rest := ms[n..];
    var h := FirstHuman(rest);
    forall j | 0 <= j < |p.body| ensures IsPairedAt(p.body, j) {
      var origin := n + if j < h then j else if h < |rest| then j + 1 else j;
      assert p.body[j] == ms[origin];
      assert IsPairedAt(ms, origin);
      if p.body[j].role == TOOL {
        assert j > 0;
      }
    }
  }

  /** A cut keeps results and calls together exactly if it does not start with a result. */
  lemma CutIsPaired(prefix: seq<Message>, body: seq<Message>, start: nat)
    requires IsPaired(body) && start <= |body|
    requires forall i :: 0 <= i < |prefix| ==> prefix[i].role != TOOL && !IsCall(prefix[i])
    ensures IsPaired(prefix + body[start..]) <==> start == |body| || body[start].role != TOOL
  {
    hide HasToolCalls;
    var kept := prefix + body[start..];
    if start < |body| && body[start].role == TOOL {
      assert kept[|prefix|] == body[start];
      assert !IsPairedAt(kept, |prefix|);
    } else {
      forall j | 0 <= j < |kept| ensures IsPairedAt(kept, j) {
        if j >= |prefix| {
          assert IsPairedAt(body, start + j - |prefix|);
        }
      }
    }
  }

  lemma StableStartIsNoResult(body: seq<Message>, budget: int)
    requires IsPaired(body) && body != [] && StableStart(body, budget).Some?
    ensures StableStart(body, budget).value < |body| && body[StableStart(body, budget).value].role != TOOL
  {
    hide Total, HasToolCalls;
    var segment := Segment(budget);
    ScanIsAscending(body, |body|, segment);
    ScanFindsBoundaries(body, |body|, segment);
    assert IsPairedAt(body, 0);
    hide Scan;
    var k := StableIndex(body, budget).value;
    assert k > 0 ==> IsBoundary(body, Boundaries(body, segment)[k]);
  }

  /** At a stable start no tool exchange is cut: it begins with no result, and what is dropped just before it
      asked for none. */
  lemma StableStartCutsNoExchange(body: seq<Message>, budget: int)
    requires StableStart(body, budget).Some? && 0 < StableStart(body, budget).value
    ensures var start := StableStart(body, budget).value;
            && start < |body| && body[start].role != TOOL
            && forall part :: part in body[start - 1].parts ==> !part.ToolCall?
  {
    hide Total;
    var segment := Segment(budget);
    ScanIsAscending(body, |body|, segment);
    ScanFindsBoundaries(body, |body|, segment);
    hide Scan;
    var k := StableIndex(body, budget).value;
    assert IsBoundary(body, Boundaries(body, segment)[k]);
  }

  /** No tool result loses its call when the prompt starts at a stable boundary. */
  lemma StablePromptIsPaired(ms: seq<Message>, maxChars: int)
    requires IsPaired(ms) && IsStable(ms, maxChars)
    ensures IsPaired(Trim(ms, maxChars))
  {
    hide PartMessages, StableStart, Total, FallbackStart, IsPaired;
    var p := PartMessages(ms, maxChars);
    BodyIsPaired(ms, maxChars);
    StableStartIsNoResult(p.body, maxChars - Total(p.prefix));
    CutIsPaired(p.prefix, p.body, StableStart(p.body, maxChars - Total(p.prefix)).value);
  }

  /** At `j` the room runs out between a tool result and what precedes it. */
  predicate CutsOffCall(body: seq<Message>, room: int, j: nat) {
    0 < j < |body| && body[j].role == TOOL && SuffixCost(body, j) <= room < SuffixCost(body, j - 1)
  }

  /** There is such a place. */
  predicate RunsOutBeforeResult(body: seq<Message>, room: int) {
    exists j | 0 <= j < |body| :: CutsOffCall(body, room, j)
  }

  /** The last message is a result that does not fit, nor does the exchange before it. */
  predicate LastResultIsAlone(body: seq<Message>, used: nat, maxChars: int)
    requires body != []
  {
    var last := |body| - 1;
    body[last].role == TOOL && used + Total(body[Adjust(body, last)..last]) > maxChars
  }

  lemma FallbackCutsOff(body: seq<Message>, used: nat, maxChars: int)
    requires IsPaired(body) && body != [] && used + Cost(body[|body| - 1]) <= maxChars
    ensures var start := FallbackStart(body, used, maxChars);
            start < |body| && (body[start].role == TOOL <==> RunsOutBeforeResult(body, maxChars - used))
  {
    hide Cost, Total, SuffixCost, HasToolCalls;
    var room, last, start := maxChars - used, |body| - 1, FallbackStart(body, used, maxChars);
    EmptySuffix(body);
    SuffixStep(body, last);
    assert IsPairedAt(body, 0);
    if body[start].role == TOOL {
      assert CutsOffCall(body, room, start);
    }
    if RunsOutBeforeResult(body, room) {
      var j :| 0 <= j < |body| && CutsOffCall(body, room, j);
      TailIsLongest(body, j, room);
    }
  }

  lemma FallbackAlone(body: seq<Message>, used: nat, maxChars: int)
    requires IsPaired(body) && body != [] && used + Cost(body[|body| - 1]) > maxChars
    ensures var start := FallbackStart(body, used, maxChars);
            start < |body| && (body[start].role == TOOL <==> LastResultIsAlone(body, used, maxChars))
  {
    hide Cost, Total, HasToolCalls;
    assert IsPairedAt(body, 0);
    var adjusted := Adjust(body, |body| - 1);
    assert adjusted > 0 ==> body[adjusted].role != TOOL;
  }

  /** In the fallback a result loses its call exactly if the room runs out just in front of a result, or,
      when not even the last message fits, that message is a result whose exchange does not fit. */
  lemma FallbackPairing(ms: seq<Message>, maxChars: int)
    requires IsPaired(ms) && NeedsTrim(ms, maxChars) && PartMessages(ms, maxChars).body != [] && !IsStable(ms, maxChars)
    ensures var p := PartMessages(ms, maxChars);
            var used := Total(p.prefix);
            !IsPaired(Trim(ms, maxChars))
            <==> if used + Cost(p.body[|p.body| - 1]) <= maxChars
                 then RunsOutBeforeResult(p.body, maxChars - used)
                 else LastResultIsAlone(p.body, used, maxChars)
  {
    hide PartMessages, StableStart, Total, FallbackStart, IsPaired, NeedsTrim, Cost, RunsOutBeforeResult, LastResultIsAlone;
    var p := PartMessages(ms, maxChars);
    var used := Total(p.prefix);
    BodyIsPaired(ms, maxChars);
    if used + Cost(p.body[|p.body| - 1]) <= maxChars {
      FallbackCutsOff(p.body, used, maxChars);
    } else {
      FallbackAlone(p.body, used, maxChars);
    }
    CutIsPaired(p.prefix, p.body, FallbackStart(p.body, used, maxChars));
  }

  lemma TotalOfTwo(a: Message, b: Message)
    ensures SuffixCost([a, b], 1) == Cost(b) && SuffixCost([a, b], 0) == Cost(a) + Cost(b)
  {
    EmptySuffix([a, b]);
    SuffixStep([a, b], 1);
    SuffixStep([a, b], 0);
  }

  lemma CallAndResultStartTogether(call: Message, result: Message, budget: int)
    requires result.role == TOOL && budget < Cost(call) + Cost(result)
    ensures StableStart([call, result], budget) == None
  {
    hide Scan, Cost;
    var body, segment := [call, result], Segment(budget);
    TotalOfTwo(call, result);
    ScanIsAscending(body, 2, segment);
    ScanFindsBoundaries(body, 2, segment);
    var boundaries := Boundaries(body, segment);
    assert |boundaries| > 1 ==> IsBoundary(body, boundaries[1]);
    assert boundaries == [0];
    assert body[0..] == body;
  }

  lemma PartOfThree(human: Message, call: Message, result: Message, maxChars: int)
    requires human.role == HUMAN
    ensures PartMessages([human, call, result], maxChars) == Parted([human], [call, result])
    ensures Total([human]) == Cost(human) && Total([human, call, result]) == Cost(human) + Cost(call) + Cost(result)
  {
    hide Cost;
    var ms := [human, call, result];
    assert ms[0..] == ms && ms[..0] == [] && ms[1..] == [call, result];
    assert ms == [human] + [call, result];
    assert [human][..0] == [];
    TotalOfTwo(call, result);
    TotalSplits([human], [call, result]);
    assert [call, result][0..] == [call, result];
  }

  /** A result that fits where its call does not is kept alone. */
  lemma LonelyResult(human: Message, call: Message, result: Message, maxChars: int)
    requires human.role == HUMAN && IsCall(call) && result.role == TOOL
    requires Cost(human) + Cost(result) <= maxChars < Cost(human) + Cost(call) + Cost(result)
    ensures IsPaired([human, call, result])
    ensures Trim([human, call, result], maxChars) == [human, result]
    ensures !IsPaired(Trim([human, call, result], maxChars))
  {
    hide Cost, HasToolCalls, Total, PartMessages, StableStart, LongestFit, SuffixCost;
    var body := [call, result];
    PartOfThree(human, call, result, maxChars);
    CallAndResultStartTogether(call, result, maxChars - Cost(human));
    TotalOfTwo(call, result);
    TailIsLongest(body, 1, maxChars - Cost(human));
    assert body[1..] == [result];
    assert !IsPairedAt([human, result], 1);
  }
}
