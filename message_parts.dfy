/** Splitting a language-model reply into "thinking" sections and plain text,
    and rendering the parts back (core/src/event_processor.rs; the copy in
    core/src/nlp/response.rs is the same code and shares this model). */
module MessageParts {
  import opened Wrappers
  import opened Strings

  const THINK_START: string := "<think>"
  const THINK_END: string := "</think>"

  datatype MessagePart = Thinking(content: string) | Text(content: string)

  /** The stretch of the original message a part was cut from: thinking parts
      lose their delimiters when they are cut out. */
  function Source(p: MessagePart, start: string, end: string): string {
    match p
    case Thinking(t) => start + t + end
    case Text(t) => t
  }

  function Concat(parts: seq<MessagePart>, start: string, end: string): string {
    if parts == [] then "" else Source(parts[0], start, end) + Concat(parts[1..], start, end)
  }

  /** The three slices `split_next_thinking_section` returns. */
  datatype Section = Section(pre: string, inner: string, rest: string)

  /** What `split_next_thinking_section` does as written: the end delimiter is
      searched from the beginning of the message, and the slice for the inner
      text panics when that end comes before the end of the start delimiter. */
  datatype SplitOutcome = NoSection | Found(section: Section) | SlicePanic

  function SplitAsWritten(message: string, start: string, end: string): (r: SplitOutcome)
  {
    match Find(message, start)
    case None => NoSection
    case Some(s) =>
      match Find(message, end)
      case None => NoSection
      case Some(e) =>
        if e < s + |start| then SlicePanic
        else Found(Section(message[..s], message[s + |start|..e], message[e + |end|..]))
  }

  /** A section the as-written split finds puts the message back together as
      text, start delimiter, thinking, end delimiter and rest. */
  lemma SplitAsWrittenReassembles(message: string, start: string, end: string)
    requires SplitAsWritten(message, start, end).Found?
    ensures var sec := SplitAsWritten(message, start, end).section;
            message == sec.pre + start + sec.inner + end + sec.rest
  {
    var s := Find(message, start).value;
    var e := Find(message, end).value;
    ReassembleAt(message, start, end, s, e);
  }

  /** A message with a start delimiter at `s` and an end delimiter at `e`
      after it is the text around them put back together. */
  lemma ReassembleAt(m: string, start: string, end: string, s: nat, e: nat)
    requires OccursAt(m, start, s) && OccursAt(m, end, e) && s + |start| <= e
    ensures m == m[..s] + start + m[s + |start|..e] + end + m[e + |end|..]
  {
    var k := s + |start|;
    var after := m[k..];
    assert m == m[..s] + start + after by {
      AroundOccurrence(m, start, s);
    }
    assert after == m[k..e] + end + m[e + |end|..] by {
      OccursAtShift(m, k, end, e - k);
      AroundOccurrence(after, end, e - k);
      assert after[..e - k] == m[k..e];
      assert after[e - k + |end|..] == m[e + |end|..];
    }
    Regroup(m[..s], start, m[k..e], end, m[e + |end|..]);
  }

  /** An occurrence inside a prefix of the message is one in the message. */
  lemma OccursInPrefix(m: string, b: nat, p: string, i: nat)
    requires b <= |m| && OccursAt(m[..b], p, i)
    ensures OccursAt(m, p, i)
  {
    forall j | 0 <= j < |p| ensures m[i + j] == p[j] {
      assert m[..b][i + j] == p[j];
    }
  }

  /** An occurrence in the rest of the message after `k` is one in the
      message, `k` places further on, and the other way round. */
  lemma OccursAtShift(m: string, k: nat, p: string, i: nat)
    requires k <= |m|
    ensures OccursAt(m[k..], p, i) <==> OccursAt(m, p, k + i)
  {
    if OccursAt(m, p, k + i) {
      forall j | 0 <= j < |p| ensures m[k..][i + j] == p[j] {
        assert m[k + i + j] == p[j];
      }
    }
  }

  /** The first occurrence from `from` on is the one no earlier position has. */
  lemma FirstOccurrence(m: string, pat: string, from: nat, k: nat)
    requires from <= k && OccursAt(m, pat, k)
    requires forall i :: from <= i < k ==> !OccursAt(m, pat, i)
    ensures FindFrom(m, pat, from) == Some(k)
  {
  }

  /** A search finds nothing where the pattern occurs nowhere. */
  lemma NoOccurrence(m: string, pat: string)
    requires forall i :: !OccursAt(m, pat, i)
    ensures Find(m, pat) == None
  {
  }

  /** The text around an occurrence of `p` at `i`. */
  lemma AroundOccurrence(x: string, p: string, i: nat)
    requires OccursAt(x, p, i)
    ensures x == x[..i] + p + x[i + |p|..]
  {
    assert x[i..i + |p|] == p;
    assert x == x[..i] + x[i..i + |p|] + x[i + |p|..];
  }

  /** `split_next_thinking_section` with the end delimiter searched only in the
      text after the start delimiter: the first start, the first end after it,
      and the text around them. */
  function Split(message: string, start: string, end: string): (r: Option<Section>)
  {
    match Find(message, start)
    case None => None
    case Some(s) =>
      var after := message[s + |start|..];
      match Find(after, end)
      case None => None
      case Some(i) => Some(Section(message[..s], after[..i], after[i + |end|..]))
  }

  /** The three slices and the two delimiters between them make up the message. */
  lemma SplitReassembles(message: string, start: string, end: string)
    requires Split(message, start, end).Some?
    ensures var sec := Split(message, start, end).value;
            message == sec.pre + start + sec.inner + end + sec.rest
  {
    var s := Find(message, start).value;
    var after := message[s + |start|..];
    var i := Find(after, end).value;
    var sec := Split(message, start, end).value;
    assert message == sec.pre + start + after by {
      AroundOccurrence(message, start, s);
    }
    assert after == sec.inner + end + sec.rest by {
      AroundOccurrence(after, end, i);
    }
    Regroup(sec.pre, start, sec.inner, end, sec.rest);
  }

  lemma Regroup(a: string, b: string, c: string, d: string, f: string)
    ensures a + b + (c + d + f) == a + b + c + d + f
  {
  }

  /** The section found is the first one: no start delimiter inside the text
      before it, and no end delimiter inside the thinking text. */
  lemma SplitFindsFirstSection(message: string, start: string, end: string)
    requires Split(message, start, end).Some?
    ensures start != [] ==> forall i :: !OccursAt(Split(message, start, end).value.pre, start, i)
    ensures end != [] ==> forall i :: !OccursAt(Split(message, start, end).value.inner, end, i)
  {
    var s := Find(message, start).value;
    var after := message[s + |start|..];
    var e := Find(after, end).value;
    var sec := Split(message, start, end).value;
    forall i | start != [] && OccursAt(sec.pre, start, i) ensures false {
      OccursInPrefix(message, s, start, i);
    }
    forall i | end != [] && OccursAt(sec.inner, end, i) ensures false {
      OccursInPrefix(after, e, end, i);
    }
  }

  /** No section is found only when no end delimiter follows any start delimiter. */
  lemma SplitNoneMeansNoSection(message: string, start: string, end: string)
    requires Split(message, start, end).None?
    ensures forall i: nat, j: nat :: OccursAt(message, start, i) && i + |start| <= j ==> !OccursAt(message, end, j)
  {
    match Find(message, start)
    case None =>
    case Some(s) =>
      var k := s + |start|;
      forall i: nat, j: nat | OccursAt(message, start, i) && i + |start| <= j
        ensures !OccursAt(message, end, j)
      {
        OccursAtShift(message, k, end, j - k);
      }
  }

  /** Where the as-written split does not panic, it agrees with `Split`. */
  lemma SplitAsWrittenAgrees(message: string, start: string, end: string)
    requires !SplitAsWritten(message, start, end).SlicePanic?
    ensures SplitAsWritten(message, start, end).NoSection? <==> Split(message, start, end).None?
    ensures SplitAsWritten(message, start, end).Found? ==>
              Split(message, start, end) == Some(SplitAsWritten(message, start, end).section)
  {
    match Find(message, start)
    case None =>
    case Some(s) =>
      var k := s + |start|;
      var after := message[k..];
      match Find(message, end)
      case None =>
        assert Find(after, end) == None by {
          forall i ensures !OccursAt(after, end, i) {
            OccursAtShift(message, k, end, i);
          }
          NoOccurrence(after, end);
        }
      case Some(e) =>
        assert Find(after, end) == Some(e - k) by {
          forall i | 0 <= i < e - k ensures !OccursAt(after, end, i) {
            OccursAtShift(message, k, end, i);
          }
          OccursAtShift(message, k, end, e - k);
          FirstOccurrence(after, end, 0, e - k);
        }
        assert after[..e - k] == message[k..e];
        assert after[e - k + |end|..] == message[e + |end|..];
  }

  /** A closing tag before the first opening tag makes the as-written split
      panic, although the message does hold a complete thinking section. The
      message is `</think><think>hi</think>`, written in its pieces. */
  lemma SplitAsWrittenPanicsOnEarlyClose()
    ensures SplitAsWritten(THINK_END + THINK_START + "hi" + THINK_END, THINK_START, THINK_END) == SlicePanic
    ensures Split(THINK_END + THINK_START + "hi" + THINK_END, THINK_START, THINK_END).Some?
  {
    EarlyClose(THINK_START, THINK_END, "hi");
  }

  /** The same for any non-empty start delimiter and any text between. */
  lemma EarlyClose(start: string, end: string, x: string)
    requires start != []
    ensures SplitAsWritten(end + start + x + end, start, end) == SlicePanic
    ensures Split(end + start + x + end, start, end).Some?
  {
    var m := end + start + x + end;
    EarlyCloseOccurrences(start, end, x);
    PanicsWhenEndFirst(m, start, end);
    if Split(m, start, end).None? {
      SplitNoneMeansNoSection(m, start, end);
    }
  }

  /** An end delimiter at the very front makes the as-written split panic on
      any message that holds a non-empty start delimiter. */
  lemma PanicsWhenEndFirst(m: string, start: string, end: string)
    requires start != [] && OccursAt(m, end, 0) && Find(m, start).Some?
    ensures SplitAsWritten(m, start, end) == SlicePanic
  {
    assert Find(m, end) == Some(0) by {
      FirstOccurrence(m, end, 0, 0);
    }
  }

  /** Where the delimiters sit in that message. */
  lemma EarlyCloseOccurrences(start: string, end: string, x: string)
    ensures var m := end + start + x + end;
      OccursAt(m, end, 0) && OccursAt(m, start, |end|) && OccursAt(m, end, |end| + |start| + |x|)
  {
    var m := end + start + x + end;
    assert m == [] + end + (start + x + end);
    OccursBetween([], end, start + x + end);
    assert m == end + start + (x + end);
    OccursBetween(end, start, x + end);
    assert m == end + start + x + end + [];
    OccursBetween(end + start + x, end, []);
  }

  /** A pattern occurs where it is put. */
  lemma OccursBetween(a: string, p: string, b: string)
    ensures OccursAt(a + p + b, p, |a|)
  {
    forall j | 0 <= j < |p| ensures (a + p + b)[|a| + j] == p[j] { }
  }

  /** One call of `MessagePartsIterator::next`: the part read from the unread
      rest of the message and how many characters it consumed. */
  datatype Step = Step(part: MessagePart, width: nat)

  function NextStep(rest: string, start: string, end: string): (r: Option<Step>)
    ensures r.None? <==> rest == []
    ensures r.Some? ==> r.value.width <= |rest| && rest[..r.value.width] == Source(r.value.part, start, end)
    ensures r.Some? && r.value.part.Text? ==> r.value.part.content != []
    ensures r.Some? && (start != [] || end != []) ==> r.value.width > 0
  {
    if rest == [] then None
    else
      match Split(rest, start, end)
      case Some(sec) =>
        SplitReassembles(rest, start, end);
        SectionPrefixes(rest, sec, start, end);
        if sec.pre != [] then Some(Step(Text(sec.pre), |sec.pre|))
        else Some(Step(Thinking(sec.inner), |sec.inner| + |start| + |end|))
      case None => Some(Step(Text(rest), |rest|))
  }

  /** The text before a section, and a section at the very front, are
      prefixes of the message they were cut from. */
  lemma SectionPrefixes(rest: string, sec: Section, start: string, end: string)
    requires rest == sec.pre + start + sec.inner + end + sec.rest
    ensures |sec.pre| + |start| + |sec.inner| + |end| <= |rest|
    ensures rest[..|sec.pre|] == sec.pre
    ensures sec.pre == [] ==> rest[..|start| + |sec.inner| + |end|] == start + sec.inner + end
  {
    assert rest == sec.pre + (start + sec.inner + end + sec.rest);
    if sec.pre == [] {
      assert rest == (start + sec.inner + end) + sec.rest;
    }
  }

  /** Everything the iterator yields from `rest` on. With both delimiters empty
      the iterator would never advance, so one of them must be non-empty. */
  function Parts(rest: string, start: string, end: string): (ps: seq<MessagePart>)
    requires start != [] || end != []
    ensures rest == [] <==> ps == []
    decreases |rest|
  {
    match NextStep(rest, start, end)
    case None => []
    case Some(step) => [step.part] + Parts(rest[step.width..], start, end)
  }

  /** The parts put back together give exactly the message, and no text part
      is empty. */
  lemma {:induction false} PartsReassemble(rest: string, start: string, end: string)
    requires start != [] || end != []
    ensures Concat(Parts(rest, start, end), start, end) == rest
    ensures var ps := Parts(rest, start, end);
      forall i :: 0 <= i < |ps| && ps[i].Text? ==> ps[i].content != []
    decreases |rest|
  {
    if rest != [] {
      PartsUnfold(rest, start, end);
      var step := NextStep(rest, start, end).value;
      PartsReassemble(rest[step.width..], start, end);
      ConsReassembles(rest, step, Parts(rest[step.width..], start, end), start, end);
    }
  }

  /** One step in front of parts that reassemble the rest of the text. */
  lemma ConsReassembles(rest: string, step: Step, tail: seq<MessagePart>, start: string, end: string)
    requires step.width <= |rest| && rest[..step.width] == Source(step.part, start, end)
    requires step.part.Text? ==> step.part.content != []
    requires Concat(tail, start, end) == rest[step.width..]
    requires forall i :: 0 <= i < |tail| && tail[i].Text? ==> tail[i].content != []
    ensures Concat([step.part] + tail, start, end) == rest
    ensures var ps := [step.part] + tail;
      forall i :: 0 <= i < |ps| && ps[i].Text? ==> ps[i].content != []
  {
    var ps := [step.part] + tail;
    assert ps[1..] == tail;
    assert rest == rest[..step.width] + rest[step.width..];
    forall i | 0 <= i < |ps| && ps[i].Text? ensures ps[i].content != [] {
      if i > 0 { assert ps[i] == tail[i - 1]; }
    }
  }

  lemma PartsUnfold(rest: string, start: string, end: string)
    requires start != [] || end != []
    requires rest != []
    ensures NextStep(rest, start, end).Some?
    ensures var step := NextStep(rest, start, end).value;
      Parts(rest, start, end) == [step.part] + Parts(rest[step.width..], start, end)
  {
  }

  /** One call of `next` as written: the iterator is exhausted, yields a step,
      or panics in the as-written split. */
  datatype StepOutcome = End | Advance(step: Step) | Panic

  /** `MessagePartsIterator::next` on the unread rest, as the code does it: on
      top of the as-written split. It ends exactly at the end of the message
      and panics only where that split does. */
  function NextStepAsWritten(rest: string, start: string, end: string): (r: StepOutcome)
    ensures r.End? <==> rest == []
    ensures r.Panic? ==> SplitAsWritten(rest, start, end).SlicePanic?
    ensures r.Advance? ==> r.step.width <= |rest| && ((start != [] || end != []) ==> r.step.width > 0)
  {
    if rest == [] then End
    else
      match SplitAsWritten(rest, start, end)
      case SlicePanic => Panic
      case Found(sec) =>
        SplitAsWrittenAgrees(rest, start, end);
        if sec.pre != [] then Advance(Step(Text(sec.pre), |sec.pre|))
        else Advance(Step(Thinking(sec.inner), |sec.inner| + |start| + |end|))
      case NoSection =>
        Advance(Step(Text(rest), |rest|))
  }

  /** Where the as-written step does not panic, it is the step of the
      corrected `NextStep`. */
  lemma NextStepAsWrittenAgrees(rest: string, start: string, end: string)
    ensures var r := NextStepAsWritten(rest, start, end);
      !r.Panic? ==> r == if NextStep(rest, start, end).None? then End else Advance(NextStep(rest, start, end).value)
  {
    if rest != [] && !SplitAsWritten(rest, start, end).SlicePanic? {
      SplitAsWrittenAgrees(rest, start, end);
    }
  }

  /** What draining the as-written iterator from `rest` on gives: the parts, or
      `None` when some call of `next` panics. */
  function PartsAsWritten(rest: string, start: string, end: string): (r: Option<seq<MessagePart>>)
    requires start != [] || end != []
    ensures r == Some([]) <==> rest == []
    ensures r.Some? ==> |r.value| <= |rest|
    decreases |rest|
  {
    match NextStepAsWritten(rest, start, end)
    case End => Some([])
    case Panic => None
    case Advance(step) =>
      match PartsAsWritten(rest[step.width..], start, end)
      case None => None
      case Some(ps) => Some([step.part] + ps)
  }

  /** Where draining the as-written iterator does not panic, it yields exactly
      the corrected parts. */
  lemma {:induction false} PartsAsWrittenAgrees(rest: string, start: string, end: string)
    requires start != [] || end != []
    ensures PartsAsWritten(rest, start, end).Some? ==> PartsAsWritten(rest, start, end).value == Parts(rest, start, end)
    decreases |rest|
  {
    match NextStepAsWritten(rest, start, end)
    case End =>
    case Panic =>
    case Advance(step) =>
      NextStepAsWrittenAgrees(rest, start, end);
      PartsAsWrittenAgrees(rest[step.width..], start, end);
      PartsUnfold(rest, start, end);
  }

  /** One step that does not panic, followed by a rest that does not panic,
      does not panic. */
  lemma PartsAsWrittenStep(rest: string, start: string, end: string, step: Step)
    requires start != [] || end != []
    requires NextStepAsWritten(rest, start, end) == Advance(step)
    requires step.width <= |rest| && PartsAsWritten(rest[step.width..], start, end).Some?
    ensures PartsAsWritten(rest, start, end).Some?
  {
  }

  /** Draining the as-written iterator over `</think><think>hi</think>`
      panics at the first call of `next`. */
  lemma PartsAsWrittenPanicsOnEarlyClose()
    ensures NextStepAsWritten(THINK_END + THINK_START + "hi" + THINK_END, THINK_START, THINK_END) == Panic
    ensures PartsAsWritten(THINK_END + THINK_START + "hi" + THINK_END, THINK_START, THINK_END) == None
  {
    SplitAsWrittenPanicsOnEarlyClose();
  }

  /** A message without a start delimiter is a single text part. */
  lemma PartsWithoutThinking(message: string, start: string, end: string)
    requires start != [] || end != []
    requires message != [] && !Contains(message, start)
    ensures Parts(message, start, end) == [Text(message)]
  {
    assert Split(message, start, end).None?;
    assert message[|message|..] == [];
  }

  /** A text part that does not reach the end of the message stopped at a
      start delimiter, so the part after it is a thinking part. */
  lemma TextFollowedByThinking(rest: string, start: string, end: string)
    requires start != [] || end != []
    requires NextStep(rest, start, end).Some?
    requires NextStep(rest, start, end).value.part.Text?
    requires NextStep(rest, start, end).value.width < |rest|
    ensures NextStep(rest[NextStep(rest, start, end).value.width..], start, end).value.part.Thinking?
  {
    SplitFromSection(rest, start, end);
  }

  /** Cut at the start of the section it found, the rest of the message splits
      with nothing before its section. */
  lemma SplitFromSection(rest: string, start: string, end: string)
    requires Split(rest, start, end).Some?
    ensures var r := rest[|Split(rest, start, end).value.pre|..];
      Split(r, start, end).Some? && Split(r, start, end).value.pre == []
  {
    var s := Find(rest, start).value;
    var k := s + |start|;
    var r := rest[s..];
    assert Find(rest[k..], end).Some?;
    assert Find(r, start) == Some(0) by {
      OccursAtShift(rest, s, start, 0);
      FirstOccurrence(r, start, 0, 0);
    }
    assert r[|start|..] == rest[k..];
  }

  /** The parts, in order, with each part's successor: a text part other than
      the last is always followed by a thinking part. */
  lemma {:induction false} PartsAlternate(rest: string, start: string, end: string)
    requires start != [] || end != []
    ensures var ps := Parts(rest, start, end);
      forall i :: 0 <= i < |ps| - 1 && ps[i].Text? ==> ps[i + 1].Thinking?
    decreases |rest|
  {
    if rest != [] {
      PartsUnfold(rest, start, end);
      var step := NextStep(rest, start, end).value;
      var tail := Parts(rest[step.width..], start, end);
      var ps := Parts(rest, start, end);
      assert ps == [step.part] + tail;
      PartsAlternate(rest[step.width..], start, end);
      forall i | 0 <= i < |ps| - 1 && ps[i].Text? ensures ps[i + 1].Thinking? {
        if i == 0 {
          PartsUnfold(rest[step.width..], start, end);
          TextFollowedByThinking(rest, start, end);
        } else {
          assert ps[i] == tail[i - 1] && ps[i + 1] == tail[i];
        }
      }
    }
  }

  /** No `<`, so no delimiter of the form `<think>` or `</think>` can start here. */
  predicate TagFree(s: string) {
    forall i :: 0 <= i < |s| ==> s[i] != '<'
  }

  /** A tag-free text, one thinking section and anything after it: the section
      the splitter finds is exactly that one. */
  lemma SplitAtSection(pre: string, t: string, post: string)
    requires TagFree(pre) && TagFree(t)
    ensures Split(pre + THINK_START + t + THINK_END + post, THINK_START, THINK_END)
            == Some(Section(pre, t, post))
  {
    SplitAtTaggedSection(pre, t, post, THINK_START, THINK_END);
  }

  /** The same for any pair of delimiters that open with `<`. */
  lemma SplitAtTaggedSection(pre: string, t: string, post: string, start: string, end: string)
    requires start != [] && start[0] == '<' && end != [] && end[0] == '<'
    requires TagFree(pre) && TagFree(t)
    ensures Split(pre + start + t + end + post, start, end) == Some(Section(pre, t, post))
  {
    var m := pre + start + t + end + post;
    var after := t + end + post;
    assert m == pre + start + after && m[|pre| + |start|..] == after && m[..|pre|] == pre;
    FindAfterTagFree(pre, start, after);
    FindAfterTagFree(t, end, post);
    assert after[..|t|] == t && after[|t| + |end|..] == post;
  }

  /** Behind a tag-free text, the first occurrence of a tag is right after it. */
  lemma FindAfterTagFree(x: string, tag: string, y: string)
    requires TagFree(x) && tag != [] && tag[0] == '<'
    ensures Find(x + tag + y, tag) == Some(|x|)
  {
    var m := x + tag + y;
    forall i | 0 <= i < |x| ensures !OccursAt(m, tag, i) {
      assert m[i + 0] == x[i];
    }
    assert OccursAt(m, tag, |x|) by {
      forall j | 0 <= j < |tag| ensures m[|x| + j] == tag[j] { }
    }
    FirstOccurrence(m, tag, 0, |x|);
  }

  /** With a start delimiter whose only `<` is its first character and an end
      delimiter that differs from it in the second character, the first end
      delimiter behind a tag-free text, a start delimiter and a tag-free
      thinking text is the one that closes the section. */
  lemma FindEndAfterStart(pre: string, t: string, post: string, start: string, end: string)
    requires |start| >= 2 && |end| >= 2 && start[0] == '<' && end[0] == '<' && start[1] != end[1]
    requires TagFree(pre) && TagFree(start[1..]) && TagFree(t)
    ensures Find(pre + start + t + end + post, end) == Some(|pre| + |start| + |t|)
  {
    var x := pre + start + t;
    var m := x + end + post;
    forall i | 0 <= i < |x| && i != |pre| ensures x[i] != '<' {
      if i < |pre| {
        assert x[i] == pre[i];
      } else if i < |pre| + |start| {
        assert x[i] == start[1..][i - |pre| - 1];
      } else {
        assert x[i] == t[i - |pre| - |start|];
      }
    }
    forall i | 0 <= i < |x| ensures !OccursAt(m, end, i) {
      if i == |pre| {
        assert i + 1 < |m| ==> m[i + 1] == start[1];
      } else {
        assert m[i + 0] == x[i];
      }
    }
    assert OccursAt(m, end, |x|) by {
      forall j | 0 <= j < |end| ensures m[|x| + j] == end[j] { }
    }
    FirstOccurrence(m, end, 0, |x|);
  }

  /** The conditions `FindEndAfterStart` puts on a pair of delimiters. */
  predicate DistinctTags(start: string, end: string) {
    |start| >= 2 && |end| >= 2 && start[0] == '<' && end[0] == '<' && start[1] != end[1] && TagFree(start[1..])
  }

  /** The delimiters of the thinking sections meet those conditions. */
  lemma ThinkDelimiters()
    ensures DistinctTags(THINK_START, THINK_END)
  {
  }

  /** A tag-free text, one section and anything after it: the split as
      written does not panic there and finds that section. */
  lemma SplitAsWrittenAtSection(pre: string, t: string, post: string, start: string, end: string)
    requires DistinctTags(start, end) && TagFree(pre) && TagFree(t)
    ensures SplitAsWritten(pre + start + t + end + post, start, end) == Found(Section(pre, t, post))
  {
    var m := pre + start + t + end + post;
    Regroup(pre, start, t, end, post);
    FindAfterTagFree(pre, start, t + end + post);
    FindEndAfterStart(pre, t, post, start, end);
    SplitAsWrittenFound(m, start, end, |pre|, |pre| + |start| + |t|);
    FiveSlices(pre, start, t, end, post);
  }

  /** The as-written split, once both searches are known. */
  lemma SplitAsWrittenFound(m: string, start: string, end: string, a: nat, b: nat)
    requires Find(m, start) == Some(a) && Find(m, end) == Some(b) && a + |start| <= b
    ensures SplitAsWritten(m, start, end) == Found(Section(m[..a], m[a + |start|..b], m[b + |end|..]))
  {
  }

  /** The slices around the delimiters of a message put together from five pieces. */
  lemma FiveSlices(pre: string, start: string, t: string, end: string, post: string)
    ensures var m := pre + start + t + end + post;
      var k := |pre| + |start| + |t|;
      m[..|pre|] == pre && m[|pre| + |start|..k] == t && m[k + |end|..] == post
  {
  }

  /** One step of the as-written iterator over a message where the as-written
      split finds a section. */
  lemma NextStepAsWrittenFound(rest: string, start: string, end: string, sec: Section)
    requires rest != [] && SplitAsWritten(rest, start, end) == Found(sec)
    ensures NextStepAsWritten(rest, start, end)
            == if sec.pre != [] then Advance(Step(Text(sec.pre), |sec.pre|))
               else Advance(Step(Thinking(sec.inner), |sec.inner| + |start| + |end|))
  {
  }

  /** The as-written iterator does not panic on a tag-free message. */
  lemma PartsAsWrittenOfTagFree(s: string, start: string, end: string)
    requires DistinctTags(start, end) && TagFree(s)
    ensures PartsAsWritten(s, start, end).Some?
  {
    if s != [] {
      forall i: nat ensures !OccursAt(s, start, i) {
        if i + |start| <= |s| {
          assert s[i + 0] != start[0];
        }
      }
      NoOccurrence(s, start);
      assert s[|s|..] == [];
    }
  }

  /** The as-written iterator does not panic on a section at the front when
      it does not panic on what follows the section. */
  lemma PartsAsWrittenOfLeadingSection(t: string, post: string, start: string, end: string)
    requires DistinctTags(start, end) && TagFree(t)
    requires PartsAsWritten(post, start, end).Some?
    ensures PartsAsWritten(start + t + end + post, start, end).Some?
  {
    var r := start + t + end + post;
    LeadingStepAsWritten(t, post, start, end);
    SplitOffRest(start, t, end, post);
    PartsAsWrittenStepTo(r, post, start, end, Step(Thinking(t), |t| + |start| + |end|));
  }

  /** The as-written step over a section at the front yields its thinking. */
  lemma LeadingStepAsWritten(t: string, post: string, start: string, end: string)
    requires DistinctTags(start, end) && TagFree(t)
    ensures NextStepAsWritten(start + t + end + post, start, end) == Advance(Step(Thinking(t), |t| + |start| + |end|))
  {
    var r := start + t + end + post;
    LeadingSplitAsWritten(t, post, start, end);
    NextStepAsWrittenFound(r, start, end, Section([], t, post));
  }

  /** The as-written split of a message that opens with a section. */
  lemma LeadingSplitAsWritten(t: string, post: string, start: string, end: string)
    requires DistinctTags(start, end) && TagFree(t)
    ensures SplitAsWritten(start + t + end + post, start, end) == Found(Section([], t, post))
  {
    SplitAsWrittenAtSection([], t, post, start, end);
    NothingBefore(start);
  }

  lemma NothingBefore(s: string)
    ensures [] + s == s
  {
  }

  /** The as-written step over a text before a section yields that text. */
  lemma TextStepAsWritten(pre: string, t: string, post: string, start: string, end: string)
    requires DistinctTags(start, end) && TagFree(pre) && TagFree(t) && pre != []
    ensures NextStepAsWritten(pre + start + t + end + post, start, end) == Advance(Step(Text(pre), |pre|))
  {
    var m := pre + start + t + end + post;
    SplitAsWrittenAtSection(pre, t, post, start, end);
    NextStepAsWrittenFound(m, start, end, Section(pre, t, post));
  }

  /** A message of five pieces is its first piece followed by the other four. */
  lemma SplitOffText(pre: string, start: string, t: string, end: string, post: string)
    ensures var r := start + t + end + post;
      pre + start + t + end + post == pre + r && |pre| <= |pre + r| && (pre + r)[|pre|..] == r
  {
    var r := start + t + end + post;
    assert pre + start + t + end + post == pre + r;
  }

  /** A message of four pieces is its first three pieces followed by the fourth. */
  lemma SplitOffRest(start: string, t: string, end: string, post: string)
    ensures var w := |t| + |start| + |end|;
      w <= |start + t + end + post| && (start + t + end + post)[w..] == post
  {
    assert start + t + end + post == (start + t + end) + post;
  }

  /** A step of the as-written iterator to a known remainder that itself does
      not panic. */
  lemma PartsAsWrittenStepTo(rest: string, tail: string, start: string, end: string, step: Step)
    requires start != [] || end != []
    requires NextStepAsWritten(rest, start, end) == Advance(step)
    requires step.width <= |rest| && rest[step.width..] == tail && PartsAsWritten(tail, start, end).Some?
    ensures PartsAsWritten(rest, start, end).Some?
  {
    PartsAsWrittenStep(rest, start, end, step);
  }

  /** The same behind a non-empty tag-free text. */
  lemma PartsAsWrittenOfSection(pre: string, t: string, post: string, start: string, end: string)
    requires DistinctTags(start, end) && TagFree(pre) && TagFree(t) && pre != []
    requires PartsAsWritten(post, start, end).Some?
    ensures PartsAsWritten(pre + start + t + end + post, start, end).Some?
  {
    var r := start + t + end + post;
    PartsAsWrittenOfLeadingSection(t, post, start, end);
    TextStepAsWritten(pre, t, post, start, end);
    SplitOffText(pre, start, t, end, post);
    PartsAsWrittenStepTo(pre + r, r, start, end, Step(Text(pre), |pre|));
  }

  /** A message that opens with a thinking section yields that thinking part,
      then the parts of whatever follows the section. */
  lemma PartsOfLeadingSection(t: string, post: string)
    requires TagFree(t)
    ensures Parts(THINK_START + t + THINK_END + post, THINK_START, THINK_END)
            == [Thinking(t)] + Parts(post, THINK_START, THINK_END)
  {
    var m := THINK_START + t + THINK_END + post;
    SplitAtSection([], t, post);
    assert [] + THINK_START + t + THINK_END + post == m;
    PartsUnfold(m, THINK_START, THINK_END);
    assert m[|t| + |THINK_START| + |THINK_END|..] == post;
  }

  /** A message that opens with a non-empty tag-free text and a thinking
      section yields that text, the thinking, then the parts of whatever
      follows the section. */
  lemma PartsOfSection(pre: string, t: string, post: string)
    requires TagFree(pre) && TagFree(t) && pre != []
    ensures Parts(pre + THINK_START + t + THINK_END + post, THINK_START, THINK_END)
            == [Text(pre), Thinking(t)] + Parts(post, THINK_START, THINK_END)
  {
    var m := pre + THINK_START + t + THINK_END + post;
    TextBeforeSection(pre, t, post);
    PartsUnfold(m, THINK_START, THINK_END);
    PartsOfLeadingSection(t, post);
  }

  lemma TextBeforeSection(pre: string, t: string, post: string)
    requires TagFree(pre) && TagFree(t) && pre != []
    ensures var m := pre + THINK_START + t + THINK_END + post;
      NextStep(m, THINK_START, THINK_END) == Some(Step(Text(pre), |pre|)) &&
      m[|pre|..] == THINK_START + t + THINK_END + post
  {
    TextBeforeTaggedSection(pre, t, post, THINK_START, THINK_END);
  }

  lemma TextBeforeTaggedSection(pre: string, t: string, post: string, start: string, end: string)
    requires start != [] && start[0] == '<' && end != [] && end[0] == '<'
    requires TagFree(pre) && TagFree(t) && pre != []
    ensures var m := pre + start + t + end + post;
      NextStep(m, start, end) == Some(Step(Text(pre), |pre|)) &&
      m[|pre|..] == start + t + end + post
  {
    var m := pre + start + t + end + post;
    SplitAtTaggedSection(pre, t, post, start, end);
    SplitOffText(pre, start, t, end, post);
  }

  /** A tag-free message is a single text part. */
  lemma PartsOfTagFree(s: string)
    requires TagFree(s) && s != []
    ensures Parts(s, THINK_START, THINK_END) == [Text(s)]
  {
    forall i: nat ensures !OccursAt(s, THINK_START, i) {
      if i + |THINK_START| <= |s| {
        assert s[i + 0] != THINK_START[0];
      }
    }
    PartsWithoutThinking(s, THINK_START, THINK_END);
  }

  /** The `thinking_iterator_works` test: text, thinking, text, with the
      message written in the pieces it is made of. */
  lemma TextThinkingTextExample()
    ensures Parts("This is a test " + THINK_START + "thinking part" + THINK_END + " and another part.",
                  THINK_START, THINK_END)
            == [Text("This is a test "), Thinking("thinking part"), Text(" and another part.")]
    ensures PartsAsWritten("This is a test " + THINK_START + "thinking part" + THINK_END + " and another part.",
                           THINK_START, THINK_END)
            == Some([Text("This is a test "), Thinking("thinking part"), Text(" and another part.")])
  {
    ExampleTagFree();
    PartsOfSection("This is a test ", "thinking part", " and another part.");
    PartsOfTagFree(" and another part.");
    PartsAsWrittenOfOneSection("This is a test ", "thinking part", " and another part.");
  }

  /** On a tag-free text, one section and a tag-free text, the as-written
      iterator does not panic and yields the parts of the message. */
  lemma PartsAsWrittenOfOneSection(pre: string, t: string, post: string)
    requires TagFree(pre) && TagFree(t) && TagFree(post) && pre != []
    ensures var m := pre + THINK_START + t + THINK_END + post;
      PartsAsWritten(m, THINK_START, THINK_END) == Some(Parts(m, THINK_START, THINK_END))
  {
    ThinkDelimiters();
    PartsAsWrittenOfTagFree(post, THINK_START, THINK_END);
    PartsAsWrittenOfSection(pre, t, post, THINK_START, THINK_END);
    PartsAsWrittenAgrees(pre + THINK_START + t + THINK_END + post, THINK_START, THINK_END);
  }

  lemma ExampleTagFree()
    ensures TagFree("This is a test ") && TagFree("thinking part") && TagFree(" and another part.")
  {
  }

  /** `MessagePartsIterator`: a cursor over a message and its two delimiters. */
  class PartsIterator {
    const message: string
    const startDelim: string
    const endDelim: string
    var cursor: nat

    ghost predicate Valid()
      reads this
    {
      cursor <= |message|
    }

    /** The part of the message the iterator has not consumed. */
    function Unread(): string
      reads this
      requires Valid()
    {
      message[cursor..]
    }

    constructor (message: string, startDelim: string, endDelim: string)
      ensures Valid()
      ensures this.message == message && this.startDelim == startDelim && this.endDelim == endDelim
      ensures cursor == 0 && Unread() == message
    {
      this.message := message;
      this.startDelim := startDelim;
      this.endDelim := endDelim;
      cursor := 0;
    }

    /** `Iterator::next`: the next part, with the cursor moved past exactly the
        characters that part was cut from, as the as-written step takes it; a
        panic in the as-written split is reported as `Panicked`. */
    method Next() returns (r: NextOutcome)
      requires Valid()
      modifies this
      ensures Valid()
      ensures match NextStepAsWritten(old(Unread()), startDelim, endDelim)
              case End => r == Exhausted && cursor == old(cursor)
              case Panic => r == Panicked && cursor == old(cursor)
              case Advance(step) => r == Yield(step.part) && cursor == old(cursor) + step.width
    {
      if cursor >= |message| {
        return Exhausted;
      }
      var split := SplitAsWritten(message[cursor..], startDelim, endDelim);
      match split
      case SlicePanic =>
        r := Panicked;
      case Found(sec) =>
        if sec.pre != [] {
          cursor := cursor + |sec.pre|;
          r := Yield(Text(sec.pre));
        } else {
          cursor := cursor + |sec.inner| + |startDelim| + |endDelim|;
          r := Yield(Thinking(sec.inner));
        }
      case NoSection =>
        var rest := message[cursor..];
        if rest != [] {
          cursor := cursor + |rest|;
          r := Yield(Text(rest));
        } else {
          r := Exhausted;
        }
    }
  }

  /** What one call of `next` does: yields a part, reports the end, or panics. */
  datatype NextOutcome = Yield(part: MessagePart) | Exhausted | Panicked

  /** The parts yielded so far in front of what draining the rest gives. */
  function Prepend(done: seq<MessagePart>, rest: Option<seq<MessagePart>>): Option<seq<MessagePart>> {
    match rest
    case None => None
    case Some(ps) => Some(done + ps)
  }

  lemma PrependNothing(rest: Option<seq<MessagePart>>)
    ensures Prepend([], rest) == rest
  {
    match rest
    case None =>
    case Some(ps) =>
      assert [] + ps == ps;
  }

  /** One round of the collecting loop keeps the yielded parts in front of
      what draining the rest gives equal to what draining the message gives. */
  lemma CollectStep(done: seq<MessagePart>, message: string, c0: nat, c1: nat, part: MessagePart,
                    start: string, end: string)
    requires start != [] || end != []
    requires c0 <= c1 <= |message|
    requires NextStepAsWritten(message[c0..], start, end) == Advance(Step(part, c1 - c0))
    ensures Prepend(done, PartsAsWritten(message[c0..], start, end))
            == Prepend(done + [part], PartsAsWritten(message[c1..], start, end))
  {
    DropDrop(message, c0, c1);
    match PartsAsWritten(message[c1..], start, end)
    case None =>
    case Some(ps) =>
      assert done + ([part] + ps) == done + [part] + ps;
  }

  lemma DropDrop(m: string, c0: nat, c1: nat)
    requires c0 <= c1 <= |m|
    ensures m[c0..][c1 - c0..] == m[c1..]
  {
  }

  /** Drains a fresh iterator, as `collect` does: `None` when a call of `next`
      panics; otherwise the parts `Parts` describes, which reassemble into the
      message. */
  method CollectParts(message: string, start: string, end: string) returns (parts: Option<seq<MessagePart>>)
    requires start != [] || end != []
    ensures parts == PartsAsWritten(message, start, end)
    ensures parts.Some? ==> parts.value == Parts(message, start, end)
    ensures parts.Some? ==> Concat(parts.value, start, end) == message
  {
    var it := new PartsIterator(message, start, end);
    var done := [];
    PrependNothing(PartsAsWritten(message, start, end));
    while true
      invariant it.Valid()
      invariant it.message == message && it.startDelim == start && it.endDelim == end
      invariant Prepend(done, PartsAsWritten(it.Unread(), start, end)) == PartsAsWritten(message, start, end)
      decreases |it.Unread()|
    {
      ghost var c0 := it.cursor;
      var p := it.Next();
      if p.Exhausted? {
        assert done + [] == done;
        parts := Some(done);
        break;
      }
      if p.Panicked? {
        parts := None;
        break;
      }
      CollectStep(done, message, c0, it.cursor, p.part, start, end);
      done := done + [p.part];
    }
    PartsAsWrittenAgrees(message, start, end);
    if parts.Some? {
      PartsReassemble(message, start, end);
    }
  }

  function SourcesOf(parts: seq<MessagePart>, start: string, end: string): seq<string> {
    if parts == [] then [] else [Source(parts[0], start, end)] + SourcesOf(parts[1..], start, end)
  }

  function TextsOf(parts: seq<MessagePart>): seq<string> {
    if parts == [] then []
    else if parts[0].Text? then [parts[0].content] + TextsOf(parts[1..])
    else TextsOf(parts[1..])
  }

  function TextOnly(parts: seq<MessagePart>): (r: seq<MessagePart>)
    ensures forall i :: 0 <= i < |r| ==> r[i].Text?
  {
    if parts == [] then []
    else if parts[0].Text? then [parts[0]] + TextOnly(parts[1..])
    else TextOnly(parts[1..])
  }

  predicate NoThinking(parts: seq<MessagePart>) {
    forall i :: 0 <= i < |parts| ==> parts[i].Text?
  }

  lemma {:induction false} TextOnlySources(parts: seq<MessagePart>, start: string, end: string)
    ensures SourcesOf(TextOnly(parts), start, end) == TextsOf(parts)
  {
    if parts != [] {
      TextOnlySources(parts[1..], start, end);
      if parts[0].Text? {
        assert ([parts[0]] + TextOnly(parts[1..]))[1..] == TextOnly(parts[1..]);
      }
    }
  }

  lemma {:induction false} TextOnlyKeepsText(parts: seq<MessagePart>)
    requires NoThinking(parts)
    ensures TextOnly(parts) == parts
  {
    if parts != [] {
      TextOnlyKeepsText(parts[1..]);
    }
  }

  /** `Display`: every part as it appeared in the model's reply (thinking
      wrapped in `<think>` tags), joined with newlines. */
  function Display(parts: seq<MessagePart>): (r: string)
    ensures |parts| == 1 ==> r == Source(parts[0], THINK_START, THINK_END)
  {
    SourcesLength(parts, THINK_START, THINK_END);
    JoinWith(SourcesOf(parts, THINK_START, THINK_END), "\n")
  }

  /** `render_without_thinking_parts`: the text parts only, in order, joined
      with newlines — the display of the message with its thinking dropped. */
  function RenderWithoutThinking(parts: seq<MessagePart>): (r: string)
    ensures r == Display(TextOnly(parts))
  {
    TextOnlySources(parts, THINK_START, THINK_END);
    JoinWith(TextsOf(parts), "\n")
  }

  /** Without thinking parts, both renderings agree. */
  lemma RenderWithoutThinkingNoThinking(parts: seq<MessagePart>)
    requires NoThinking(parts)
    ensures RenderWithoutThinking(parts) == Display(parts)
  {
    TextOnlyKeepsText(parts);
  }

  lemma {:induction false} SourcesAppend(a: seq<MessagePart>, b: seq<MessagePart>, start: string, end: string)
    ensures SourcesOf(a + b, start, end) == SourcesOf(a, start, end) + SourcesOf(b, start, end)
  {
    if a == [] {
      assert a + b == b;
    } else {
      assert (a + b)[1..] == a[1..] + b;
      SourcesAppend(a[1..], b, start, end);
    }
  }

  lemma {:induction false} SourcesLength(parts: seq<MessagePart>, start: string, end: string)
    ensures |SourcesOf(parts, start, end)| == |parts|
  {
    if parts != [] {
      SourcesLength(parts[1..], start, end);
    }
  }

  /** Displaying two runs of parts one after the other puts a newline between them. */
  lemma DisplayAppend(a: seq<MessagePart>, b: seq<MessagePart>)
    requires a != [] && b != []
    ensures Display(a + b) == Display(a) + "\n" + Display(b)
  {
    SourcesAppend(a, b, THINK_START, THINK_END);
    SourcesLength(a, THINK_START, THINK_END);
    SourcesLength(b, THINK_START, THINK_END);
    JoinAppend(SourcesOf(a, THINK_START, THINK_END), SourcesOf(b, THINK_START, THINK_END), "\n");
  }
}
