/** Merging the managed region into the host's system prompt. */
module RuneBlock {
  import opened Collections

  // ------------------------------------------------------------ string operations

  predicate StartsAt(s: string, m: string, i: nat) { i + |m| <= |s| && s[i..i + |m|] == m }

  predicate Contains(s: string, m: string) { exists i: nat :: i <= |s| && StartsAt(s, m, i) }

  /** `indexOf` from a position. */
  function IndexOf(s: string, m: string, from: nat): (r: Option<nat>)
    requires from <= |s|
    ensures r.None? ==> forall i: nat :: from <= i ==> !StartsAt(s, m, i)
    ensures r.Some? ==> from <= r.value && StartsAt(s, m, r.value)
    ensures r.Some? ==> forall i: nat :: from <= i < r.value ==> !StartsAt(s, m, i)
    decreases |s| - from
  {
    if StartsAt(s, m, from) then Some(from) else if from == |s| then None else IndexOf(s, m, from + 1)
  }

  /** `replaceAll`: left to right, without overlap. */
  function ReplaceAll(s: string, m: string, r: string): string
    requires m != []
  {
    if s == [] then []
    else if StartsAt(s, m, 0) then r + ReplaceAll(s[|m|..], m, r)
    else [s[0]] + ReplaceAll(s[1..], m, r)
  }

  // ------------------------------------------------------------------- the merge

  /** The region's two markers and what each becomes inside content. */
  datatype Markers = Markers(start: string, end: string, startText: string, endText: string)

  const MARKER_NAME: string := "!-- rune-context:"

  const RUNE: Markers := Markers("<" + (MARKER_NAME + "start" + " -->"), "<" + (MARKER_NAME + "end" + " -->"),
                                 "&lt;" + (MARKER_NAME + "start" + " --&gt;"),
                                     "&lt;" + (MARKER_NAME + "end" + " --&gt;"))

  function Safe(k: Markers, block: string): string
    requires k.start != [] && k.end != []
  {
    ReplaceAll(ReplaceAll(block, k.start, k.startText), k.end, k.endText)
  }

  function Wrapped(k: Markers, block: string): string
    requires k.start != [] && k.end != []
  {
    k.start + ['\n'] + Safe(k, block) + ['\n'] + k.end
  }

  predicate Marked(k: Markers, entry: string) { IndexOf(entry, k.start, 0).Some? }

  /** The first entry that holds a region. */
  function FirstMarked(k: Markers, system: seq<string>): (r: Option<nat>)
    ensures r.None? ==> forall i :: 0 <= i < |system| ==> !Marked(k, system[i])
    ensures r.Some? ==> r.value < |system| && Marked(k, system[r.value])
    ensures r.Some? ==> forall i :: 0 <= i < r.value ==> !Marked(k, system[i])
  {
    if system == [] then None
    else
      var n := |system| - 1;
      var front := FirstMarked(k, system[..n]);
      if front.Some? then front else if Marked(k, system[n]) then Some(n) else None
  }

  /** Where the region of a marked entry starts and ends; an unclosed region runs to the end. */
  function Region(k: Markers, entry: string): (r: (nat, nat))
    requires Marked(k, entry)
    ensures r.0 <= r.1 <= |entry|
  {
    var start := IndexOf(entry, k.start, 0).value;
    var end := IndexOf(entry, k.end, start);
    (start, if end.Some? then end.value + |k.end| else |entry|)
  }

  function Before(k: Markers, entry: string): string
    requires Marked(k, entry)
  {
    entry[..Region(k, entry).0]
  }

  function Behind(k: Markers, entry: string): string
    requires Marked(k, entry)
  {
    entry[Region(k, entry).1..]
  }

  function Merged(k: Markers, system: seq<string>, block: string): seq<string>
    requires k.start != [] && k.end != []
  {
    var at := FirstMarked(k, system);
    if block == [] && at.None? then system
    else if at.Some? then
      system[at.value := Before(k, system[at.value]) + Wrapped(k, block) + Behind(k, system[at.value])]
    else if system == [] then [Wrapped(k, block)]
    else system[|system| - 1 := system[|system| - 1] + ['\n', '\n'] + Wrapped(k, block)]
  }

  lemma FirstMarkedIs(k: Markers, system: seq<string>, i: nat)
    requires i < |system| && Marked(k, system[i]) && forall j :: 0 <= j < i ==> !Marked(k, system[j])
    ensures FirstMarked(k, system) == Some(i)
  {
  }

  /** One entry with its region rewritten. */
  method ReplaceRegion(k: Markers, entry: string, wrapped: string) returns (r: string)
    requires Marked(k, entry)
    ensures r == Before(k, entry) + wrapped + Behind(k, entry)
  {
    var start := IndexOf(entry, k.start, 0).value;
    var endMarker := IndexOf(entry, k.end, start);
    var end := if endMarker.None? then |entry| else endMarker.value + |k.end|;
    r := entry[..start] + wrapped + entry[end..];
  }

  /** The host's list of system entries. */
  class SystemPrompt {
    var system: seq<string>

    constructor (system: seq<string>)
      ensures this.system == system
    {
      this.system := system;
    }

    method MergeRuneBlock(k: Markers, block: string)
      requires k.start != [] && k.end != []
      modifies this
      ensures system == Merged(k, old(system), block)
    {
      var hasExistingMarker := exists s :: s in system && Marked(k, s);
      if block == [] && !hasExistingMarker { return; }
      var safeBlock := ReplaceAll(ReplaceAll(block, k.start, k.startText), k.end, k.endText);
      var wrapped := k.start + ['\n'] + safeBlock + ['\n'] + k.end;
      for i := 0 to |system|
        invariant system == old(system)
        invariant forall j :: 0 <= j < i ==> !Marked(k, system[j])
      {
        var start := IndexOf(system[i], k.start, 0);
        if start.None? { continue; }
        FirstMarkedIs(k, system, i);
        var replaced := ReplaceRegion(k, system[i], wrapped);
        system := system[i := replaced];
        return;
      }
      assert FirstMarked(k, system) == None;
      if |system| == 0 {
        system := [wrapped];
      } else {
        system := system[|system| - 1 := system[|system| - 1] + ['\n', '\n'] + wrapped];
      }
    }
  }

  // ----------------------------------------------------- escaped content has no marker

  /** `m` begins with a character it never repeats, and has no line break. */
  ghost predicate Marker(m: string) { m != [] && (forall i :: 0 < i < |m| ==> m[i] != m[0]) && '\n' !in m }

  /** `r` can neither hold nor help to complete an occurrence of `m`. */
  ghost predicate Inert(r: string, m: string) { m != [] && r != [] && m[0] !in r && r[0] !in m }

  ghost predicate Sound(k: Markers) {
    && Marker(k.start) && Marker(k.end) && !StartsAt(k.start, k.end, 0) && k.start[0] == k.end[0]
    && Inert(k.startText, k.start) && Inert(k.endText, k.start) && Inert(k.endText, k.end)
  }

  ghost predicate Plain(s: string) { '<' !in s && '&' !in s && '\n' !in s }

  lemma PiecesPlain()
    ensures Plain(MARKER_NAME) && Plain("start") && Plain("end") && Plain(" -->")
    ensures '<' !in "&lt;" && '<' !in " --&gt;" && "&lt;"[0] == '&'
  {
  }

  lemma MarkerOf(rest: string)
    requires Plain(rest)
    ensures Marker("<" + rest) && ("<" + rest)[0] == '<' && '&' !in "<" + rest
  {
    assert forall i :: 0 <= i < |rest| ==> rest[i] in rest;
  }

  lemma InertText(head: string, text: string, m: string)
    requires head != [] && head[0] == '&' && '<' !in head && '<' !in text && m != [] && m[0] == '<' && '&' !in m
    ensures Inert(head + text, m)
  {
  }

  /** The markers the program uses satisfy what the merge relies on. */
  lemma RuneMarkersSound()
    ensures Sound(RUNE)
  {
    PiecesPlain();
    MarkerOf(MARKER_NAME + "start" + " -->");
    MarkerOf(MARKER_NAME + "end" + " -->");
    InertText("&lt;", MARKER_NAME + "start" + " --&gt;", RUNE.start);
    InertText("&lt;", MARKER_NAME + "end" + " --&gt;", RUNE.start);
    InertText("&lt;", MARKER_NAME + "end" + " --&gt;", RUNE.end);
    MarkersDiffer(MARKER_NAME);
  }

  lemma MarkersDiffer(name: string)
    ensures !StartsAt("<" + (name + "start" + " -->"), "<" + (name + "end" + " -->"), 0)
  {
    var s, m := "<" + (name + "start" + " -->"), "<" + (name + "end" + " -->");
    AtAll(s, m, 0);
    assert s[|name| + 1] == 's' && m[|name| + 1] == 'e';
  }

  lemma AtAll(s: string, m: string, i: nat)
    ensures StartsAt(s, m, i) ==> forall d :: 0 <= d < |m| ==> s[i + d] == m[d]
  {
    if StartsAt(s, m, i) {
      assert forall d :: 0 <= d < |m| ==> s[i..i + |m|][d] == m[d];
    }
  }

  /** Text that survives a replacement in front of a string was there before it. */
  lemma {:induction false} PrefixWasThere(s: string, m: string, r: string, w: string)
    requires m != [] && r != [] && r[0] !in w && StartsAt(ReplaceAll(s, m, r), w, 0)
    ensures StartsAt(s, w, 0)
    decreases |w|
  {
    if w != [] {
      var out := ReplaceAll(s, m, r);
      AtAll(out, w, 0);
      assert w[0] in w;
      if !StartsAt(s, m, 0) {
        var rest := ReplaceAll(s[1..], m, r);
        assert out == [s[0]] + rest;
        assert rest[..|w| - 1] == out[..|w|][1..] == w[1..];
        PrefixWasThere(s[1..], m, r, w[1..]);
        assert s[..|w|] == [s[0]] + s[1..][..|w| - 1] == [w[0]] + w[1..] == w;
      }
    }
  }

  lemma OutsideReplacement(r: string, rest: string, w: string, p: nat)
    requires Inert(r, w) && StartsAt(r + rest, w, p)
    ensures p >= |r| && StartsAt(rest, w, p - |r|)
  {
    var out := r + rest;
    AtAll(out, w, p);
    assert out[p] == w[0];
    assert forall i :: 0 <= i < |r| ==> out[i] == r[i] && r[i] in r;
    assert rest[p - |r|..p - |r| + |w|] == out[p..p + |w|];
  }

  lemma TailOccurrence(c: char, rest: string, w: string, p: nat)
    requires p > 0 && StartsAt([c] + rest, w, p)
    ensures StartsAt(rest, w, p - 1)
  {
    assert rest[p - 1..p - 1 + |w|] == ([c] + rest)[p..p + |w|];
  }

  /** An occurrence at the front of what is left of `s` starts with its first character. */
  lemma HeadOccurrence(s: string, m: string, r: string, w: string)
    requires m != [] && Inert(r, w) && s != [] && StartsAt([s[0]] + ReplaceAll(s[1..], m, r), w, 0)
    ensures StartsAt(s, w, 0)
  {
    var rest := ReplaceAll(s[1..], m, r);
    var out := [s[0]] + rest;
    AtAll(out, w, 0);
    assert rest[..|w| - 1] == out[..|w|][1..] == w[1..];
    PrefixWasThere(s[1..], m, r, w[1..]);
    assert s[..|w|] == [s[0]] + s[1..][..|w| - 1] == [w[0]] + w[1..] == w;
  }

  /** Wherever `w` occurs after a replacement of `m`, it occurred before, and not as a replaced `m`. */
  lemma {:induction false} OccurrenceWasThere(s: string, m: string, r: string, w: string, p: nat)
    requires m != [] && Inert(r, w) && StartsAt(ReplaceAll(s, m, r), w, p)
    ensures Contains(s, w) && w != m
    decreases |s|
  {
    if StartsAt(s, m, 0) {
      OutsideReplacement(r, ReplaceAll(s[|m|..], m, r), w, p);
      OccurrenceWasThere(s[|m|..], m, r, w, p - |r|);
      ContainsShifted(s, |m|, w);
    } else if p == 0 {
      HeadOccurrence(s, m, r, w);
    } else {
      TailOccurrence(s[0], ReplaceAll(s[1..], m, r), w, p);
      OccurrenceWasThere(s[1..], m, r, w, p - 1);
      ContainsShifted(s, 1, w);
    }
  }

  lemma ContainsShifted(s: string, n: nat, w: string)
    requires n <= |s| && Contains(s[n..], w)
    ensures Contains(s, w)
  {
    var i: nat :| i <= |s[n..]| && StartsAt(s[n..], w, i);
    assert s[n + i..n + i + |w|] == s[n..][i..i + |w|];
    assert StartsAt(s, w, n + i);
  }

  /** Escaped content holds neither marker, whatever the content. */
  lemma SafeHasNoMarker(k: Markers, block: string)
    requires Sound(k)
    ensures !Contains(Safe(k, block), k.start) && !Contains(Safe(k, block), k.end)
  {
    var half := ReplaceAll(block, k.start, k.startText);
    if p: nat :| p <= |Safe(k, block)| && StartsAt(Safe(k, block), k.end, p) {
      OccurrenceWasThere(half, k.end, k.endText, k.end, p);
    }
    if p: nat :| p <= |Safe(k, block)| && StartsAt(Safe(k, block), k.start, p) {
      OccurrenceWasThere(half, k.end, k.endText, k.start, p);
      var q: nat :| q <= |half| && StartsAt(half, k.start, q);
      OccurrenceWasThere(block, k.start, k.startText, k.start, q);
    }
  }

  // -------------------------------------------------- a merged region is found again

  lemma IndexIs(s: string, m: string, from: nat, at: nat)
    requires from <= at && StartsAt(s, m, at) && forall i: nat :: from <= i < at ==> !StartsAt(s, m, i)
    ensures IndexOf(s, m, from) == Some(at)
  {
  }

  /** The end marker of a wrapped block is the first one after its start. */
  lemma EndFound(k: Markers, block: string, pre: string, post: string)
    requires Sound(k)
    ensures IndexOf(pre + Wrapped(k, block) + post, k.end, |pre|) == Some(|pre| + |k.start| + |Safe(k, block)| + 2)
  {
    var safe := Safe(k, block);
    var s := pre + Wrapped(k, block) + post;
    var at := |pre| + |k.start| + |safe| + 2;
    assert s[at..at + |k.end|] == k.end;
    forall i: nat | |pre| <= i < at ensures !StartsAt(s, k.end, i) {
      NoEarlierEnd(k, block, pre, post, i);
    }
    IndexIs(s, k.end, |pre|, at);
  }

  lemma NoneInside(s: string, from: nat, inner: string, m: string, i: nat)
    requires !Contains(inner, m) && from + |inner| <= |s| && s[from..from + |inner|] == inner
    requires from <= i && i - from + |m| <= |inner|
    ensures !StartsAt(s, m, i)
  {
    var q: nat := i - from;
    if StartsAt(s, m, i) {
      AtAll(s, m, i);
      forall d | 0 <= d < |m| ensures inner[q + d] == m[d] {
        assert s[from..from + |inner|][q + d] == s[i + d];
      }
      assert inner[q..q + |m|] == m;
      assert StartsAt(inner, m, q);
    }
  }

  lemma NoEndAcrossBreak(k: Markers, s: string, at: nat, i: nat)
    requires Sound(k) && at < |s| && s[at] == '\n' && i <= at < i + |k.end|
    ensures !StartsAt(s, k.end, i)
  {
    AtAll(s, k.end, i);
    assert k.end[at - i] in k.end;
  }

  lemma NoEarlierEnd(k: Markers, block: string, pre: string, post: string, i: nat)
    requires Sound(k) && |pre| <= i < |pre| + |k.start| + |Safe(k, block)| + 2
    ensures !StartsAt(pre + Wrapped(k, block) + post, k.end, i)
  {
    var safe := Safe(k, block);
    var s := pre + Wrapped(k, block) + post;
    var from := |pre| + |k.start| + 1;
    assert s[from..from + |safe|] == safe && s[from + |safe|] == '\n';
    if i < from {
      StartHasNoEnd(k, block, pre, post, i);
    } else if i - from + |k.end| <= |safe| {
      SafeHasNoMarker(k, block);
      NoneInside(s, from, safe, k.end, i);
    } else {
      NoEndAcrossBreak(k, s, from + |safe|, i);
    }
  }

  lemma StartHasNoEnd(k: Markers, block: string, pre: string, post: string, i: nat)
    requires Sound(k) && |pre| <= i <= |pre| + |k.start|
    ensures !StartsAt(pre + Wrapped(k, block) + post, k.end, i)
  {
    var s := pre + Wrapped(k, block) + post;
    var n := |k.end|;
    assert s[|pre|..|pre| + |k.start|] == k.start;
    assert s[|pre| + |k.start|] == '\n';
    assert k.end[0] in k.end;
    AtAll(s, k.end, i);
    if |pre| < i < |pre| + |k.start| {
      assert s[i] == k.start[i - |pre|];
    } else if i == |pre| && n <= |k.start| {
      assert k.start[..n] == s[i..i + n];
    } else if i == |pre| {
      assert k.end[|k.start|] in k.end;
    }
  }

  /** In `pre` + region + `post`, a start marker is not found before `pre` ends. */
  ghost predicate FreshPrefix(k: Markers, pre: string) {
    forall i: nat :: i < |pre| ==> !StartsAt(pre + k.start, k.start, i)
  }

  /** A start marker right after a fresh prefix is the first one, whatever follows. */
  lemma StartFound(k: Markers, pre: string, tail: string)
    requires FreshPrefix(k, pre)
    ensures IndexOf((pre + k.start) + tail, k.start, 0) == Some(|pre|)
  {
    var s := (pre + k.start) + tail;
    forall i: nat | i < |pre| ensures !StartsAt(s, k.start, i) {
      assert s[i..i + |k.start|] == (pre + k.start)[i..i + |k.start|];
      assert !StartsAt(pre + k.start, k.start, i);
    }
    assert s[|pre|..|pre| + |k.start|] == k.start;
    IndexIs(s, k.start, 0, |pre|);
  }

  lemma WrappedTail(k: Markers, block: string, pre: string, post: string)
    requires k.start != [] && k.end != []
    ensures pre + Wrapped(k, block) + post == (pre + k.start) + (['\n'] + Safe(k, block) + ['\n'] + k.end + post)
    ensures |Wrapped(k, block)| == |k.start| + |Safe(k, block)| + 2 + |k.end|
  {
  }

  lemma AroundMiddle(pre: string, middle: string, post: string)
    ensures (pre + middle + post)[..|pre|] == pre && (pre + middle + post)[|pre| + |middle|..] == post
  {
  }

  lemma MergedRegion(k: Markers, block: string, pre: string, post: string)
    requires Sound(k) && FreshPrefix(k, pre)
    ensures var s := pre + Wrapped(k, block) + post;
            Marked(k, s) && Before(k, s) == pre && Behind(k, s) == post
  {
    WrappedTail(k, block, pre, post);
    StartFound(k, pre, ['\n'] + Safe(k, block) + ['\n'] + k.end + post);
    EndFound(k, block, pre, post);
    AroundMiddle(pre, Wrapped(k, block), post);
  }

  lemma NotBeforeFirst(s: string, m: string, i: nat)
    requires IndexOf(s, m, 0).Some? && i < IndexOf(s, m, 0).value
    ensures !StartsAt(s, m, i)
  {
  }

  /** An occurrence in a front part is one in the whole. */
  lemma InFrontPart(s: string, n: nat, m: string, i: nat)
    requires n <= |s|
    ensures StartsAt(s[..n], m, i) ==> StartsAt(s, m, i)
  {
    if StartsAt(s[..n], m, i) { assert s[..n][i..i + |m|] == s[i..i + |m|]; }
  }

  lemma MarkedIsFresh(k: Markers, entry: string)
    requires Marked(k, entry)
    ensures FreshPrefix(k, Before(k, entry))
  {
    var start := Region(k, entry).0;
    var pre := Before(k, entry);
    assert entry[start..start + |k.start|] == k.start;
    assert entry[..start + |k.start|] == pre + k.start;
    forall i: nat | i < |pre| ensures !StartsAt(pre + k.start, k.start, i) {
      NotBeforeFirst(entry, k.start, i);
      InFrontPart(entry, start + |k.start|, k.start, i);
    }
  }

  lemma UnmarkedIsFresh(k: Markers, entry: string)
    requires Sound(k) && !Marked(k, entry)
    ensures FreshPrefix(k, entry + ['\n', '\n'])
  {
    var pre := entry + ['\n', '\n'];
    var n := |k.start|;
    forall i: nat | i < |pre| ensures !StartsAt(pre + k.start, k.start, i) {
      AtAll(pre + k.start, k.start, i);
      if i + n <= |entry| {
        assert entry[i..i + n] == (pre + k.start)[i..i + n];
        assert !StartsAt(entry, k.start, i);
      } else {
        var at := if i <= |entry| then |entry| else i;
        assert (pre + k.start)[at] == '\n';
        assert at - i < n ==> k.start[at - i] in k.start;
      }
    }
  }

  // --------------------------------------------------------------- main properties

  /** What a merge leaves: the region sits in one entry, between the text that was around it. */
  ghost predicate Placed(k: Markers, system: seq<string>, at: nat, pre: string, post: string) {
    && at < |system| && FreshPrefix(k, pre)
    && (forall i :: 0 <= i < at ==> !Marked(k, system[i]))
    && Marked(k, system[at]) && Before(k, system[at]) == pre && Behind(k, system[at]) == post
  }

  lemma PlacedMerge(k: Markers, system: seq<string>, at: nat, pre: string, post: string, block: string)
    requires Sound(k) && Placed(k, system, at, pre, post)
    ensures Merged(k, system, block) == system[at := pre + Wrapped(k, block) + post]
    ensures Placed(k, Merged(k, system, block), at, pre, post)
  {
    assert FirstMarked(k, system) == Some(at);
    MergedRegion(k, block, pre, post);
  }

  ghost predicate HasRegion(k: Markers, system: seq<string>) { FirstMarked(k, system).Some? }

  /** A merge into a prompt that has a region changes that region and nothing else; the region is found again with
      the same text around it. */
  lemma OutsideUnchanged(k: Markers, system: seq<string>, block: string)
    requires Sound(k) && HasRegion(k, system)
    ensures var at, merged := FirstMarked(k, system).value, Merged(k, system, block);
            && |merged| == |system| && (forall i :: 0 <= i < |system| && i != at ==> merged[i] == system[i])
            && FirstMarked(k, merged) == Some(at)
            && Before(k, merged[at]) == Before(k, system[at]) && Behind(k, merged[at]) == Behind(k, system[at])
            && merged[at] == Before(k, system[at]) + Wrapped(k, block) + Behind(k, system[at])
  {
    var at := FirstMarked(k, system).value;
    MarkedIsFresh(k, system[at]);
    PlacedMerge(k, system, at, Before(k, system[at]), Behind(k, system[at]), block);
  }

  /** The first merge into a prompt without a region appends to its last entry, and is found there again. */
  lemma FirstMergePlaced(k: Markers, system: seq<string>, block: string)
    requires Sound(k) && !HasRegion(k, system) && block != []
    ensures var merged := Merged(k, system, block);
            var pre := if system == [] then [] else system[|system| - 1] + ['\n', '\n'];
            Placed(k, merged, |merged| - 1, pre, [])
            && merged == (if system == [] then [[]] else system)[|merged| - 1 := pre + Wrapped(k, block)]
  {
    if system != [] { UnmarkedIsFresh(k, system[|system| - 1]); }
    var pre := if system == [] then [] else system[|system| - 1] + ['\n', '\n'];
    MergedRegion(k, block, pre, []);
    assert pre + Wrapped(k, block) + [] == pre + Wrapped(k, block);
  }

  /** The prompt never grows past its own size, or one entry when it was empty. */
  lemma MergeBounded(k: Markers, system: seq<string>, block: string)
    requires Sound(k)
    ensures |Merged(k, system, block)| == if system == [] && block != [] then 1 else |system|
  {
  }

  /** The last merge wins, exactly when it leaves a region or the earlier one did not. */
  lemma LastWriteWins(k: Markers, system: seq<string>, a: string, b: string)
    requires Sound(k)
    ensures Merged(k, Merged(k, system, a), b) == Merged(k, system, b) <==> b != [] || HasRegion(k, system) || a == []
  {
    var once := Merged(k, system, a);
    if HasRegion(k, system) {
      var at := FirstMarked(k, system).value;
      var pre, post := Before(k, system[at]), Behind(k, system[at]);
      MarkedIsFresh(k, system[at]);
      PlacedMerge(k, system, at, pre, post, a);
      PlacedMerge(k, once, at, pre, post, b);
      PlacedMerge(k, system, at, pre, post, b);
    } else if a != [] {
      FirstMergePlaced(k, system, a);
      AfterFirstMerge(k, system, a, b);
    }
  }

  lemma AfterFirstMerge(k: Markers, system: seq<string>, a: string, b: string)
    requires Sound(k) && !HasRegion(k, system) && a != []
    ensures Merged(k, Merged(k, system, a), b) == Merged(k, system, b) <==> b != []
  {
    var once := Merged(k, system, a);
    var pre := if system == [] then [] else system[|system| - 1] + ['\n', '\n'];
    FirstMergePlaced(k, system, a);
    PlacedMerge(k, once, |once| - 1, pre, [], b);
    assert pre + Wrapped(k, b) + [] == pre + Wrapped(k, b);
    if b == [] {
      assert HasRegion(k, Merged(k, once, b));
    } else {
      FirstMergePlaced(k, system, b);
    }
  }

  /** Merging the same block again changes nothing. */
  lemma MergeIdempotent(k: Markers, system: seq<string>, block: string)
    requires Sound(k)
    ensures Merged(k, Merged(k, system, block), block) == Merged(k, system, block)
  {
    LastWriteWins(k, system, block, block);
  }

  // ---------------------------------------------------- what is written, piece by piece

  /** The pieces laid end to end, with `m` between them. */
  ghost function Spliced(pieces: seq<string>, m: string): string {
    if pieces == [] then []
    else if |pieces| == 1 then pieces[0]
    else pieces[0] + m + Spliced(pieces[1..], m)
  }

  /** `out` is `s` with every occurrence of `m` replaced by `r`, and nothing else different. */
  ghost predicate Replaced(s: string, m: string, r: string, out: string) {
    exists pieces :: SplitBy(pieces, s, m) && out == Spliced(pieces, r)
  }

  ghost predicate SplitBy(pieces: seq<string>, s: string, m: string) {
    pieces != [] && s == Spliced(pieces, m) && forall p :: p in pieces ==> !Contains(p, m)
  }

  lemma SplicedFront(pieces: seq<string>, m: string)
    requires pieces != []
    ensures pieces[0] <= Spliced(pieces, m)
    ensures Spliced([[]] + pieces, m) == m + Spliced(pieces, m)
  {
    assert ([[]] + pieces)[1..] == pieces;
  }

  lemma SplicedExtend(c: char, pieces: seq<string>, m: string)
    requires pieces != []
    ensures Spliced([[c] + pieces[0]] + pieces[1..], m) == [c] + Spliced(pieces, m)
  {
    var longer := [[c] + pieces[0]] + pieces[1..];
    if |pieces| == 1 {
      assert longer == [[c] + pieces[0]];
    } else {
      assert longer[1..] == pieces[1..];
      assert ([c] + pieces[0]) + m + Spliced(pieces[1..], m) == [c] + (pieces[0] + m + Spliced(pieces[1..], m));
    }
  }

  lemma FrontPart(s: string, t: string, m: string)
    requires s <= t
    ensures StartsAt(s, m, 0) ==> StartsAt(t, m, 0)
  {
    if StartsAt(s, m, 0) { assert t[..|m|] == s[..|m|]; }
  }

  lemma NoneInLonger(c: char, rest: string, piece: string, m: string)
    requires m != [] && !StartsAt([c] + rest, m, 0) && piece <= rest && !Contains(piece, m)
    ensures !Contains([c] + piece, m)
  {
    FrontPart([c] + piece, [c] + rest, m);
    if i: nat :| 0 < i <= |[c] + piece| && StartsAt([c] + piece, m, i) { TailOccurrence(c, piece, m, i); }
  }

  lemma {:induction false} ReplaceAllExactly(s: string, m: string, r: string) returns (pieces: seq<string>)
    requires m != []
    ensures SplitBy(pieces, s, m) && ReplaceAll(s, m, r) == Spliced(pieces, r)
    decreases |s|
  {
    if s == [] {
      pieces := [[]];
    } else if StartsAt(s, m, 0) {
      var rest := ReplaceAllExactly(s[|m|..], m, r);
      pieces := [[]] + rest;
      SplicedFront(rest, m);
      SplicedFront(rest, r);
      assert s == m + s[|m|..];
    } else {
      var rest := ReplaceAllExactly(s[1..], m, r);
      pieces := [[s[0]] + rest[0]] + rest[1..];
      SplicedExtend(s[0], rest, m);
      SplicedExtend(s[0], rest, r);
      SplicedFront(rest, m);
      assert s == [s[0]] + s[1..];
      NoneInLonger(s[0], s[1..], rest[0], m);
    }
  }

  /** The content as it is put into the region: every start marker escaped, then every end marker. */
  ghost predicate Escaped(k: Markers, block: string, safe: string) {
    exists half :: Replaced(block, k.start, k.startText, half) && Replaced(half, k.end, k.endText, safe)
  }

  lemma SafeExactly(k: Markers, block: string)
    requires k.start != [] && k.end != []
    ensures Escaped(k, block, Safe(k, block))
  {
    var half := ReplaceAll(block, k.start, k.startText);
    var first := ReplaceAllExactly(block, k.start, k.startText);
    var second := ReplaceAllExactly(half, k.end, k.endText);
    assert Replaced(block, k.start, k.startText, half) && Replaced(half, k.end, k.endText, Safe(k, block));
  }

  /** The region: start marker, escaped content, end marker, a line break between them. */
  ghost predicate RegionOf(k: Markers, block: string, region: string) {
    exists safe :: Escaped(k, block, safe) && region == k.start + "\n" + safe + "\n" + k.end
  }

  /** `region` is what is found in the entry: from its first start marker to the end of the first end marker after
      that, or to the end of the entry when there is none. */
  ghost predicate Found(k: Markers, pre: string, region: string, post: string) {
    var entry := pre + region + post;
    && StartsAt(entry, k.start, |pre|) && (forall i: nat :: i < |pre| ==> !StartsAt(entry, k.start, i))
    && if exists i: nat :: i >= |pre| && StartsAt(entry, k.end, i)
       then exists i: nat :: i >= |pre| && StartsAt(entry, k.end, i) && |pre + region| == i + |k.end|
              && forall j: nat :: |pre| <= j < i ==> !StartsAt(entry, k.end, j)
       else post == ""
  }

  ghost predicate HasStart(k: Markers, entry: string) { exists i: nat :: StartsAt(entry, k.start, i) }

  lemma MarkedHasStart(k: Markers, entry: string)
    ensures Marked(k, entry) <==> HasStart(k, entry)
  {
  }

  lemma FoundAt(k: Markers, entry: string)
    requires Marked(k, entry)
    requires var (a, b) := Region(k, entry); entry[..a] + entry[a..b] + entry[b..] == entry
    ensures var (a, b) := Region(k, entry); Found(k, entry[..a], entry[a..b], entry[b..])
  {
    var (a, b) := Region(k, entry);
    assert |entry[..a] + entry[a..b]| == b;
  }

  lemma RegionFound(k: Markers, entry: string)
    requires Marked(k, entry)
    ensures var region := entry[Region(k, entry).0..Region(k, entry).1];
            entry == Before(k, entry) + region + Behind(k, entry)
                && Found(k, Before(k, entry), region, Behind(k, entry))
  {
    var (a, b) := Region(k, entry);
    assert entry[..a] + entry[a..b] + entry[b..] == entry;
    FoundAt(k, entry);
  }

  ghost predicate FirstStart(k: Markers, system: seq<string>, i: nat) {
    i < |system| && HasStart(k, system[i]) && forall j :: 0 <= j < i ==> !HasStart(k, system[j])
  }

  /** The entry with its region replaced, and what is around it kept. */
  ghost predicate Rewritten(k: Markers, entry: string, block: string, next: string) {
    exists pre, found, region, post ::
      && entry == pre + found + post && Found(k, pre, found, post)
      && RegionOf(k, block, region) && next == pre + region + post
  }

  lemma FirstStartIs(k: Markers, system: seq<string>, i: nat)
    requires FirstStart(k, system, i)
    ensures FirstMarked(k, system) == Some(i)
  {
    forall j | 0 <= j <= i ensures Marked(k, system[j]) <==> j == i { MarkedHasStart(k, system[j]); }
    FirstMarkedIs(k, system, i);
  }

  lemma WrappedIsRegion(k: Markers, block: string)
    requires k.start != [] && k.end != []
    ensures RegionOf(k, block, Wrapped(k, block))
  {
    SafeExactly(k, block);
    assert Wrapped(k, block) == k.start + "\n" + Safe(k, block) + "\n" + k.end;
  }

  lemma EntryRewritten(k: Markers, entry: string, block: string)
    requires k.start != [] && k.end != [] && Marked(k, entry)
    ensures Rewritten(k, entry, block, Before(k, entry) + Wrapped(k, block) + Behind(k, entry))
  {
    RegionFound(k, entry);
    WrappedIsRegion(k, block);
  }

  /** What a merge makes of a prompt with a start marker: the first entry that has one keeps what is around its
      region, and every other entry stays. */
  lemma MergeIntoMarked(k: Markers, system: seq<string>, block: string, i: nat)
    requires k.start != [] && k.end != [] && FirstStart(k, system, i)
    ensures var merged := Merged(k, system, block);
            && |merged| == |system| && (forall j :: 0 <= j < |system| && j != i ==> merged[j] == system[j])
            && Rewritten(k, system[i], block, merged[i])
  {
    FirstStartIs(k, system, i);
    EntryRewritten(k, system[i], block);
  }

  ghost function Appended(system: seq<string>, region: string): seq<string> {
    if system == [] then [region] else system[..|system| - 1] + [system[|system| - 1] + "\n\n" + region]
  }

  /** Without one, an empty block changes nothing, and any other is appended to the last entry after an empty line, or
      becomes the only entry. */
  lemma MergeIntoUnmarked(k: Markers, system: seq<string>, block: string)
    requires k.start != [] && k.end != [] && forall i :: 0 <= i < |system| ==> !HasStart(k, system[i])
    ensures block == "" ==> Merged(k, system, block) == system
    ensures block != "" ==>
      exists region :: RegionOf(k, block, region) && Merged(k, system, block) == Appended(system, region)
  {
    forall i | 0 <= i < |system| ensures !Marked(k, system[i]) { MarkedHasStart(k, system[i]); }
    WrappedIsRegion(k, block);
    assert FirstMarked(k, system) == None;
    if block != "" && system != [] {
      var last := system[|system| - 1] + "\n\n" + Wrapped(k, block);
      assert Merged(k, system, block) == system[|system| - 1 := last] == system[..|system| - 1] + [last];
    }
  }

  lemma NamesAre()
    ensures MARKER_NAME + "start" == "!-- rune-context:start" && MARKER_NAME + "end" == "!-- rune-context:end"
  {
  }

  lemma MarkersClosed(start: string, end: string)
    requires start == "!-- rune-context:start" && end == "!-- rune-context:end"
    ensures "<" + (start + " -->") == "<!-- rune-context:start -->"
        && "<" + (end + " -->") == "<!-- rune-context:end -->"
  {
  }

  lemma TextsClosed(start: string, end: string)
    requires start == "!-- rune-context:start" && end == "!-- rune-context:end"
    ensures "&lt;" + (start + " --&gt;") == "&lt;!-- rune-context:start --&gt;"
    ensures "&lt;" + (end + " --&gt;") == "&lt;!-- rune-context:end --&gt;"
  {
    StartTextClosed(start);
    EndTextClosed(end);
  }

  lemma StartTextClosed(start: string)
    requires start == "!-- rune-context:start"
    ensures "&lt;" + (start + " --&gt;") == "&lt;!-- rune-context:start --&gt;"
  {
  }

  lemma EndTextClosed(end: string)
    requires end == "!-- rune-context:end"
    ensures "&lt;" + (end + " --&gt;") == "&lt;!-- rune-context:end --&gt;"
  {
  }

  /** The two markers, and what they become inside content. */
  lemma RuneMarkersAre()
    ensures RUNE.start == "<!-- rune-context:start -->" && RUNE.end == "<!-- rune-context:end -->"
    ensures RUNE.startText == "&lt;!-- rune-context:start --&gt;" && RUNE.endText == "&lt;!-- rune-context:end --&gt;"
  {
    NamesAre();
    MarkersClosed(MARKER_NAME + "start", MARKER_NAME + "end");
    TextsClosed(MARKER_NAME + "start", MARKER_NAME + "end");
  }
}
