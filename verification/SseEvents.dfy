/** Splits an SSE body into its events' data, a read at a time: how the body was cut into reads changes nothing. */
module SseEventsOf {

  const NL: char := '\n'
  const PREFIX: string := "data: "

  /** The line not ended yet, and the data of the event not ended yet. */
  datatype State = State(line: string, data: string)

  /** What a text leaves, and the events it completed. */
  datatype Split = Split(state: State, events: seq<string>)

  /** A whole line: data to keep, or an empty one, which ends an event that had some. */
  function EndLine(line: string, data: string): Split {
    if PREFIX <= line then Split(State("", line[|PREFIX|..]), [])
    else if line == "" && data != "" then Split(State("", ""), [data])
    else Split(State("", data), [])
  }

  /** The text taken character by character. */
  function Take(s: State, text: string): Split
    decreases |text|
  {
    if text == "" then Split(s, [])
    else if text[0] == NL then
      var first := EndLine(s.line, s.data);
      var rest := Take(first.state, text[1..]);
      Split(rest.state, first.events + rest.events)
    else Take(s.(line := s.line + [text[0]]), text[1..])
  }

  /** Taking two texts is taking them as one. */
  lemma {:induction false} TakeSplits(s: State, a: string, b: string)
    ensures Take(s, a + b) ==
            Split(Take(Take(s, a).state, b).state, Take(s, a).events + Take(Take(s, a).state, b).events)
    decreases |a|
  {
    if a == "" {
      assert a + b == b;
    } else {
      assert (a + b)[1..] == a[1..] + b;
      TakeSplits(if a[0] == NL then EndLine(s.line, s.data).state else s.(line := s.line + [a[0]]), a[1..], b);
    }
  }

  /** Up to the next newline all joins the line. */
  lemma {:induction false} TakeLine(s: State, text: string, nl: nat)
    requires nl <= |text| && forall i | 0 <= i < nl :: text[i] != NL
    ensures Take(s, text) == Take(s.(line := s.line + text[..nl]), text[nl..])
    decreases nl
  {
    if nl == 0 {
      assert text[0..] == text && s.line + text[..0] == s.line;
    } else {
      var rest := text[1..];
      assert forall i | 0 <= i < nl - 1 :: rest[i] == text[i + 1];
      TakeLine(s.(line := s.line + [text[0]]), rest, nl - 1);
      assert rest[nl - 1..] == text[nl..];
      assert s.line + [text[0]] + rest[..nl - 1] == s.line + text[..nl];
    }
  }

  function Join(parts: seq<string>): string {
    if parts == [] then "" else Join(parts[..|parts| - 1]) + parts[|parts| - 1]
  }

  lemma JoinAppend(parts: seq<string>, part: string)
    ensures Join(parts + [part]) == Join(parts) + part
  {
    assert (parts + [part])[..|parts|] == parts;
  }

  /** All the events of the reads, one after another. */
  function TakeAll(s: State, cuts: seq<string>): Split
    decreases |cuts|
  {
    if cuts == [] then Split(s, [])
    else
      var first := Take(s, cuts[0]);
      var rest := TakeAll(first.state, cuts[1..]);
      Split(rest.state, first.events + rest.events)
  }

  function Whole(cuts: seq<string>): string {
    if cuts == [] then "" else cuts[0] + Whole(cuts[1..])
  }

  /** Any two ways of cutting the same body into reads give the same events. */
  lemma {:induction false} CutsDoNotMatter(s: State, cuts: seq<string>)
    ensures TakeAll(s, cuts) == Take(s, Whole(cuts))
    decreases |cuts|
  {
    if cuts != [] {
      TakeSplits(s, cuts[0], Whole(cuts[1..]));
      CutsDoNotMatter(Take(s, cuts[0]).state, cuts[1..]);
    }
  }

  // ── What the server sends ──

  /** An event of `data`, which holds no newline: a line of it, then an empty one. */
  function Event(data: string): string {
    PREFIX + data + [NL, NL]
  }

  function Events(all: seq<string>): string {
    if all == [] then "" else Event(all[0]) + Events(all[1..])
  }

  predicate OneLine(data: string) {
    data != "" && forall i | 0 <= i < |data| :: data[i] != NL
  }

  lemma TakesNewline(s: State)
    ensures Take(s, [NL]) == EndLine(s.line, s.data)
  {
    var first := EndLine(s.line, s.data);
    assert [NL][1..] == "" && Take(first.state, "") == Split(first.state, []);
  }

  lemma TakesEvent(data: string)
    requires OneLine(data)
    ensures Take(State("", ""), Event(data)) == Split(State("", ""), [data])
  {
    var line := PREFIX + data;
    assert Event(data) == line + ([NL] + [NL]);
    TakeLine(State("", ""), line, |line|);
    assert line[|line|..] == "" && "" + line[..|line|] == line;
    TakeSplits(State("", ""), line, [NL] + [NL]);
    TakeSplits(State(line, ""), [NL], [NL]);
    TakesNewline(State(line, ""));
    assert line[|PREFIX|..] == data;
    TakesNewline(State("", data));
  }

  lemma {:induction false} TakesEvents(all: seq<string>)
    requires forall i | 0 <= i < |all| :: OneLine(all[i])
    ensures Take(State("", ""), Events(all)) == Split(State("", ""), all)
  {
    if all != [] {
      TakesEvent(all[0]);
      assert forall i | 0 <= i < |all[1..]| :: all[1..][i] == all[i + 1];
      TakesEvents(all[1..]);
      TakeSplits(State("", ""), Event(all[0]), Events(all[1..]));
      assert [all[0]] + all[1..] == all;
    }
  }

  /** However the events' bytes are cut into reads, the events read are just those sent, in order, and nothing is left. */
  lemma EventsArrive(all: seq<string>, cuts: seq<string>)
    requires (forall i | 0 <= i < |all| :: OneLine(all[i])) && Whole(cuts) == Events(all)
    ensures TakeAll(State("", ""), cuts) == Split(State("", ""), all)
  {
    CutsDoNotMatter(State("", ""), cuts);
    TakesEvents(all);
  }

  /** The index of the next newline from `start`, or the text's length. */
  method IndexOf(text: string, start: nat) returns (nl: nat)
    requires start <= |text|
    ensures start <= nl <= |text| && (forall i | start <= i < nl :: text[i] != NL)
    ensures nl < |text| ==> text[nl] == NL
  {
    nl := start;
    while nl < |text| && text[nl] != NL
      invariant start <= nl <= |text| && forall i | start <= i < nl :: text[i] != NL
    {
      nl := nl + 1;
    }
  }

  class SseEvents {
    /** The line that spans reads, in parts. */
    var partial: seq<string>
    var data: string

    function Model(): State
      reads this
    {
      State(Join(partial), data)
    }

    constructor ()
      ensures Model() == State("", "")
    {
      partial, data := [], "";
    }

    /** A whole line ended at a newline. */
    method TakeEnded(line: string) returns (events: seq<string>)
      modifies this
      ensures partial == [] && Split(Model(), events) == EndLine(old(Model()).line + line, old(data))
    {
      var whole := line;
      JoinAppend(partial, line);
      if |partial| > 0 {
        whole := Join(partial + [line]);
      }
      assert whole == Join(partial) + line;
      partial, events := [], [];
      if PREFIX <= whole {
        data := whole[|PREFIX|..];
      } else if whole == "" && data != "" {
        events := [data];
        data := "";
      }
    }

    /** The events a read completes, whole lines searched for once. */
    method Push(text: string) returns (events: seq<string>)
      modifies this
      ensures Split(Model(), events) == Take(old(Model()), text)
    {
      var start := 0;
      events := [];
      var nl := IndexOf(text, 0);
      while nl < |text|
        invariant start <= nl <= |text| && (forall i | start <= i < nl :: text[i] != NL)
        invariant nl < |text| ==> text[nl] == NL
        invariant Take(old(Model()), text)
                  == Split(Take(Model(), text[start..]).state, events + Take(Model(), text[start..]).events)
        decreases |text| - nl
      {
        ghost var s := Model();
        LineEnds(s, text, start, nl);
        var more := TakeEnded(text[start..nl]);
        events := events + more;
        start := nl + 1;
        nl := IndexOf(text, start);
      }
      TakeLine(Model(), text[start..], |text| - start);
      assert text[start..][|text| - start..] == "";
      if start < |text| {
        JoinAppend(partial, text[start..]);
        partial := partial + [text[start..]];
      }
    }
  }

  lemma LineEnds(s: State, text: string, start: nat, nl: nat)
    requires start <= nl < |text| && text[nl] == NL && forall i | start <= i < nl :: text[i] != NL
    ensures var first := EndLine(s.line + text[start..nl], s.data);
            Take(s, text[start..]) == Split(Take(first.state, text[nl + 1..]).state,
                                            first.events + Take(first.state, text[nl + 1..]).events)
  {
    var rest := text[start..];
    assert forall i | 0 <= i < nl - start :: rest[i] == text[start + i];
    TakeLine(s, rest, nl - start);
    assert rest[..nl - start] == text[start..nl] && rest[nl - start..] == text[nl..];
    assert text[nl..][1..] == text[nl + 1..];
  }
}
