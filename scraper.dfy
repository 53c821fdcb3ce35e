/**
 * One poll cycle of the scraper (script/src/index.ts): the cleaning gate,
 * the five-slot change detection, the conditional report entry and the
 * rotation of the snapshots, plus the headline clean-up of the live sampler.
 */
module Scraper {
  import opened Wrappers
  import opened Clock
  import opened Sequences
  import opened Snapshot
  import opened ScriptUtils

  // ---------------------------------------------------------------------------
  // Headline clean-up: `headline.replace(/:(?! )/g, ": ")`

  /** Every ':' is immediately followed by a space. */
  predicate ColonsSpaced(s: string) {
    forall i :: 0 <= i < |s| && s[i] == ':' ==> i + 1 < |s| && s[i + 1] == ' '
  }

  /** The ':' characters not followed by a space (a ':' at the very end counts). */
  function UnspacedColons(s: string): nat {
    if s == [] then 0
    else (if s[0] == ':' && (|s| == 1 || s[1] != ' ') then 1 else 0) + UnspacedColons(s[1..])
  }

  /** The characters of `s` other than spaces, in order. */
  function NonSpaces(s: string): string {
    Filter(s, c => c != ' ')
  }

  /**
   * Inserts a space after every ':' that the original text does not already
   * follow with one; the look-ahead reads the original text, so "::" becomes ": : ".
   */
  function SpaceColons(s: string): (r: string)
    ensures ColonsSpaced(r)
    ensures s != [] ==> r != [] && r[0] == s[0]
  {
    if s == [] then [] else Piece(s) + SpaceColons(s[1..])
  }

  /** What the first character of non-empty text becomes. */
  function Piece(s: string): string
    requires s != []
  {
    if s[0] == ':' && (|s| == 1 || s[1] != ' ') then ": " else [s[0]]
  }

  /** The text grows by one space per ':' not already followed by one. */
  lemma {:induction false} SpaceColonsLength(s: string)
    ensures |SpaceColons(s)| == |s| + UnspacedColons(s)
  {
    if s != [] {
      SpaceColonsLength(s[1..]);
    }
  }

  /** The rewrite only inserts spaces: every other character is kept, in order. */
  lemma {:induction false} SpaceColonsOnlyAddsSpaces(s: string)
    ensures NonSpaces(SpaceColons(s)) == NonSpaces(s)
  {
    if s != [] {
      var p := c => c != ' ';
      SpaceColonsOnlyAddsSpaces(s[1..]);
      assert s == [s[0]] + s[1..];
      FilterConcat([s[0]], s[1..], p);
      if s[0] == ':' && (|s| == 1 || s[1] != ' ') {
        FilterConcat(": ", SpaceColons(s[1..]), p);
        FilterConcat([':'], " ", p);
        assert ": " == [':'] + " ";
      } else {
        FilterConcat([s[0]], SpaceColons(s[1..]), p);
      }
    }
  }

  /** Text is left exactly as it is if and only if its colons are already spaced. */
  lemma {:induction false} SpaceColonsFixedIff(s: string)
    ensures SpaceColons(s) == s <==> ColonsSpaced(s)
  {
    if s != [] && ColonsSpaced(s) {
      assert ColonsSpaced(s[1..]) by {
        forall i | 0 <= i < |s[1..]| && s[1..][i] == ':'
          ensures i + 1 < |s[1..]| && s[1..][i + 1] == ' '
        {
          assert s[i + 1] == ':';
        }
      }
      SpaceColonsFixedIff(s[1..]);
    }
  }

  /** A single character: a lone ':' gains a space, anything else is kept. */
  lemma SpaceColonsChar(c: char)
    ensures SpaceColons([c]) == if c == ':' then ": " else [c]
  {
  }

  /**
   * The rewrite works piece by piece: text split anywhere except between a
   * ':' and a space is rewritten as its two halves.
   */
  lemma {:induction false} SpaceColonsConcat(a: string, b: string)
    requires !(a != [] && a[|a| - 1] == ':' && b != [] && b[0] == ' ')
    ensures SpaceColons(a + b) == SpaceColons(a) + SpaceColons(b)
  {
    if a == [] {
      assert a + b == b;
    } else {
      var a' := a[1..];
      assert (a + b)[1..] == a' + b;
      assert a' != [] ==> a'[|a'| - 1] == a[|a| - 1];
      SpaceColonsConcat(a', b);
      PieceOfConcat(a, b);
      calc {
        SpaceColons(a + b);
        Piece(a + b) + SpaceColons((a + b)[1..]);
        Piece(a) + (SpaceColons(a') + SpaceColons(b));
        { SeqAssoc(Piece(a), SpaceColons(a'), SpaceColons(b)); }
        (Piece(a) + SpaceColons(a')) + SpaceColons(b);
      }
    }
  }

  lemma SeqAssoc(x: string, y: string, z: string)
    ensures x + (y + z) == (x + y) + z
  {
  }

  /** The first character is rewritten alike unless a ':' meets a space at the seam. */
  lemma PieceOfConcat(a: string, b: string)
    requires a != [] && !(a[|a| - 1] == ':' && b != [] && b[0] == ' ')
    ensures Piece(a + b) == Piece(a)
  {
    if |a| > 1 {
      assert (a + b)[1] == a[1];
    } else if b != [] {
      assert (a + b)[1] == b[0];
    }
  }

  /** A ':' that the text already follows with a space is kept as it is. */
  lemma SpaceColonsColonSpace(a: string, b: string)
    requires a != [] && a[|a| - 1] == ':' && b != [] && b[0] == ' '
    ensures SpaceColons(a + b) == SpaceColons(a[..|a| - 1]) + ":" + SpaceColons(b)
  {
    var p, t := a[..|a| - 1], [':'] + b;
    assert a + b == p + t;
    assert t[1..] == b && t[1] == ' ';
    SpaceColonsConcat(p, t);
  }

  /** Running the clean-up twice gives the same text as running it once. */
  lemma SpaceColonsIdempotent(s: string)
    ensures SpaceColons(SpaceColons(s)) == SpaceColons(s)
  {
    SpaceColonsFixedIff(SpaceColons(s));
  }

  /**
   * One slot read from the live page: `None` stands for a headline or kicker
   * whose element was not found, which the sampler records as "".
   */
  function LiveSlot(headline: Option<string>, kicker: Option<string>): (r: Story)
    ensures r.headline.Some? && r.kicker.Some?
    ensures ColonsSpaced(r.headline.value)
    ensures headline.None? ==> r.headline == Some("")
    ensures kicker.None? ==> r.kicker == Some("")
    ensures kicker.Some? ==> r.kicker == kicker
    ensures headline.Some? ==> r.headline == Some(SpaceColons(headline.value))
  {
    Story(Some(SpaceColons(headline.GetOr(""))), Some(kicker.GetOr("")))
  }

  // ---------------------------------------------------------------------------
  // The poll cycle

  /** What the driver threads from one cycle to the next. */
  datatype LoopState = LoopState(prevStories: seq<Story>, currStories: seq<Story>, hasCleaned: bool)

  /** The scraper's two files, as values. */
  datatype Disk = Disk(report: ReportFile, log: string)

  /** Everything one cycle reads and changes. */
  datatype World = World(state: LoopState, disk: Disk)

  /** One poll: the time it runs at and the five slots the sampler reads then. */
  datatype Poll = Poll(now: DateTime, sampled: seq<Story>)

  predicate ValidState(state: LoopState) {
    IsSnapshot(state.prevStories) && IsSnapshot(state.currStories)
  }

  /** The state at process start: previous slots "", current slots null, not cleaned. */
  function InitialState(): (s: LoopState)
    ensures ValidState(s) && !s.hasCleaned
    ensures forall i :: 0 <= i < SlotCount ==> s.prevStories[i] == Story(Some(""), Some(""))
    ensures forall i :: 0 <= i < SlotCount ==> s.currStories[i] == Story(None, None)
  {
    LoopState(GenerateDefaultStories(Some("")), GenerateDefaultStories(None), false)
  }

  /**
   * The effect of one cycle: clean once per maintenance window, stay idle for
   * the rest of it, and otherwise compare the sampled slots with the previous
   * ones, put a dated entry in front of the report when any slot differs, and
   * rotate the snapshots.
   */
  function Cycle(w: World, now: DateTime, sampled: seq<Story>): (r: World)
    requires IsSnapshot(w.state.prevStories) && IsSnapshot(sampled)
    ensures IsSnapshot(r.state.prevStories)
    ensures r.state.hasCleaned <==> IsCleaningTime(now)
    ensures r.disk.log == if IsCleaningTime(now) && !w.state.hasCleaned then "" else w.disk.log
    ensures IsCleaningTime(now) ==> r.state.prevStories == w.state.prevStories
    ensures !IsCleaningTime(now) ==> r.state.prevStories == sampled
  {
    if IsCleaningTime(now) && !w.state.hasCleaned then
      World(w.state.(hasCleaned := true),
            Disk(Json(Retained(ReadEntries(w.disk.report), now.day)), ""))
    else if IsCleaningTime(now) then
      w
    else
      World(LoopState(sampled, GenerateDefaultStories(None), false),
            if Changed(w.state.prevStories, sampled)
            then w.disk.(report := Json([Entry(now, sampled)] + ReadEntries(w.disk.report)))
            else w.disk)
  }

  /**
   * One cycle as the scraper runs it: the slots are written one by one into a
   * copy of the current snapshot, the change flag is accumulated over all five,
   * and the report entry is written on the last slot.
   */
  method Check(files: ScriptFiles, prevStories: seq<Story>, currStories: seq<Story>,
               hasCleaned: bool, now: DateTime, sampled: seq<Story>)
    returns (next: LoopState)
    requires IsSnapshot(prevStories) && IsSnapshot(currStories) && IsSnapshot(sampled)
    modifies files
    ensures World(next, Disk(files.report, files.log))
         == Cycle(World(LoopState(prevStories, currStories, hasCleaned),
                        Disk(old(files.report), old(files.log))), now, sampled)
  {
    var prev := prevStories;
    var curr := new Story[SlotCount](j requires 0 <= j < SlotCount => currStories[j]);
    var cleaned := hasCleaned;

    if IsCleaningTime(now) && !cleaned {
      files.Clean(now);
      cleaned := true;
      return LoopState(prev, curr[..], cleaned);
    } else if IsCleaningTime(now) {
      return LoopState(prev, curr[..], cleaned);
    } else {
      cleaned := false;
    }

    var hasChanged := false;
    for i := 0 to SlotCount
      invariant forall j :: 0 <= j < i ==> curr[j] == sampled[j]
      invariant hasChanged <==> exists j :: 0 <= j < i && SlotDiffers(prev[j], sampled[j])
      invariant files.log == old(files.log)
      invariant files.report
             == if i == SlotCount && hasChanged
                then Json([Entry(now, sampled)] + ReadEntries(old(files.report)))
                else old(files.report)
    {
      var isLastIteration := i == SlotCount - 1;
      curr[i] := sampled[i];
      if prev[i].headline != curr[i].headline || prev[i].kicker != curr[i].kicker {
        hasChanged := true;
      }
      if isLastIteration && hasChanged {
        assert curr[..] == sampled;
        files.AppendReport(Entry(now, curr[..]));
      }
    }

    assert curr[..] == sampled;
    next := LoopState(curr[..], GenerateDefaultStories(None), cleaned);
  }

  /** A sequence of cycles, each starting from where the previous one left off. */
  function Run(w: World, polls: seq<Poll>): (r: World)
    requires IsSnapshot(w.state.prevStories)
    requires forall k :: 0 <= k < |polls| ==> IsSnapshot(polls[k].sampled)
    ensures IsSnapshot(r.state.prevStories)
    decreases |polls|
  {
    if polls == [] then w
    else Run(Cycle(w, polls[0].now, polls[0].sampled), polls[1..])
  }

  // ---------------------------------------------------------------------------
  // Properties of the cycle

  /** First cycle of a window: clean, set the flag, keep the snapshots, sample nothing. */
  lemma CleaningCycle(w: World, now: DateTime, sampled: seq<Story>)
    requires IsSnapshot(w.state.prevStories) && IsSnapshot(sampled)
    requires IsCleaningTime(now) && !w.state.hasCleaned
    ensures var r := Cycle(w, now, sampled);
      && r.state.hasCleaned
      && r.state.prevStories == w.state.prevStories
      && r.state.currStories == w.state.currStories
      && r.disk.log == ""
      && ReadEntries(r.disk.report) == Retained(ReadEntries(w.disk.report), now.day)
  {
  }

  /** Later cycles of the same window change nothing at all. */
  lemma IdleCycle(w: World, now: DateTime, sampled: seq<Story>)
    requires IsSnapshot(w.state.prevStories) && IsSnapshot(sampled)
    requires IsCleaningTime(now) && w.state.hasCleaned
    ensures Cycle(w, now, sampled) == w
  {
  }

  /**
   * Outside the window: the flag is cleared, the sampled slots become the
   * previous snapshot, the current one is reset to null, the log is untouched,
   * and the report gains one entry, in front, exactly when a slot changed.
   */
  lemma SamplingCycle(w: World, now: DateTime, sampled: seq<Story>)
    requires IsSnapshot(w.state.prevStories) && IsSnapshot(sampled)
    requires !IsCleaningTime(now)
    ensures var r := Cycle(w, now, sampled);
      && r.state == LoopState(sampled, GenerateDefaultStories(None), false)
      && r.disk.log == w.disk.log
      && |ReadEntries(r.disk.report)| == |ReadEntries(w.disk.report)| + (if w.state.prevStories != sampled then 1 else 0)
      && (w.state.prevStories != sampled ==>
            ReadEntries(r.disk.report) == [Entry(now, sampled)] + ReadEntries(w.disk.report))
      && (w.state.prevStories == sampled ==> r.disk == w.disk)
  {
    ChangedIffUnequal(w.state.prevStories, sampled);
  }

  /** Cycles that all fall in a window once it has been cleaned do nothing. */
  lemma {:induction false} RunIdleInWindow(w: World, polls: seq<Poll>)
    requires IsSnapshot(w.state.prevStories) && w.state.hasCleaned
    requires forall k :: 0 <= k < |polls| ==> IsSnapshot(polls[k].sampled) && IsCleaningTime(polls[k].now)
    ensures Run(w, polls) == w
    decreases |polls|
  {
    if polls != [] {
      RunIdleInWindow(w, polls[1..]);
    }
  }

  /** However many cycles run inside one window, cleaning happens once: the first. */
  lemma CleanOncePerWindow(w: World, polls: seq<Poll>)
    requires IsSnapshot(w.state.prevStories) && polls != []
    requires forall k :: 0 <= k < |polls| ==> IsSnapshot(polls[k].sampled) && IsCleaningTime(polls[k].now)
    ensures Run(w, polls) == Cycle(w, polls[0].now, polls[0].sampled)
  {
    var w1 := Cycle(w, polls[0].now, polls[0].sampled);
    assert w1.state.hasCleaned;
    RunIdleInWindow(w1, polls[1..]);
  }

  /** Cycles that keep sampling the snapshot already held change no file. */
  lemma {:induction false} RunUnchangedSnapshot(w: World, polls: seq<Poll>)
    requires IsSnapshot(w.state.prevStories)
    requires forall k :: 0 <= k < |polls| ==>
      polls[k].sampled == w.state.prevStories && !IsCleaningTime(polls[k].now)
    ensures Run(w, polls).disk == w.disk
    ensures Run(w, polls).state.prevStories == w.state.prevStories
    decreases |polls|
  {
    if polls != [] {
      var w1 := Cycle(w, polls[0].now, polls[0].sampled);
      SamplingCycle(w, polls[0].now, polls[0].sampled);
      RunUnchangedSnapshot(w1, polls[1..]);
    }
  }

  /**
   * The same new snapshot sampled on several cycles in a row yields a single
   * report entry, written by the first of them.
   */
  lemma RepeatedSnapshotReportedOnce(w: World, polls: seq<Poll>, snapshot: seq<Story>)
    requires IsSnapshot(w.state.prevStories) && IsSnapshot(snapshot)
    requires w.state.prevStories != snapshot && polls != []
    requires forall k :: 0 <= k < |polls| ==>
      polls[k].sampled == snapshot && !IsCleaningTime(polls[k].now)
    ensures ReadEntries(Run(w, polls).disk.report)
         == [Entry(polls[0].now, snapshot)] + ReadEntries(w.disk.report)
  {
    var w1 := Cycle(w, polls[0].now, polls[0].sampled);
    SamplingCycle(w, polls[0].now, polls[0].sampled);
    RunUnchangedSnapshot(w1, polls[1..]);
  }

  /**
   * A change on day d, the maintenance window on day d + 1, then a second
   * change on day d + 1: both entries survive the cleaning, newest first.
   */
  lemma ChangeCleanChange(s1: seq<Story>, s2: seq<Story>, t1: DateTime, t2: DateTime, t3: DateTime,
                          curr: seq<Story>)
    requires IsSnapshot(s1) && IsSnapshot(s2) && IsSnapshot(curr)
    requires s1 != GenerateDefaultStories(Some("")) && s2 != s1
    requires !IsCleaningTime(t1) && IsCleaningTime(t2) && !IsCleaningTime(t3)
    requires t2.day == t1.day + 1 && t3.day == t2.day
    ensures ReadEntries(Run(World(InitialState(), Disk(Blank, "")),
                            [Poll(t1, s1), Poll(t2, curr), Poll(t3, s2)]).disk.report)
         == [Entry(t3, s2), Entry(t1, s1)]
  {
    var w0 := World(InitialState(), Disk(Blank, ""));
    var w1 := Cycle(w0, t1, s1);
    SamplingCycle(w0, t1, s1);
    var w2 := Cycle(w1, t2, curr);
    RetainedAllRecent([Entry(t1, s1)], t2.day);
    var w3 := Cycle(w2, t3, s2);
    SamplingCycle(w2, t3, s2);
    var polls := [Poll(t1, s1), Poll(t2, curr), Poll(t3, s2)];
    assert polls[1..] == [Poll(t2, curr), Poll(t3, s2)];
    assert polls[1..][1..] == [Poll(t3, s2)];
    calc {
      Run(w0, polls);
      Run(w1, polls[1..]);
      Run(w2, polls[1..][1..]);
      Run(w3, polls[1..][1..][1..]);
      { assert polls[1..][1..][1..] == []; }
      w3;
    }
  }
}
