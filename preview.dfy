/** The interactive loop of `cmd_test`, which recognition.rs and detection.rs
    spell out identically: poll the keyboard, and until ESC arrives read a
    frame, embed it, compare it with the reference and report one of three
    verdicts. Showing the frame and printing the verdict are not modelled;
    the verdicts are collected instead. */
module Preview {
  import opened Configuration
  import opened Environment

  datatype Verdict = TooDark | Match | NoMatch

  /** The per-frame report. Darkness is tested first; a match needs a
      similarity strictly above the threshold. */
  function Classify(brightness: real, similarity: Score, p: Params): (v: Verdict)
    ensures v == TooDark <==> brightness < p.minBrightness
    ensures v == Match <==>
      brightness >= p.minBrightness && similarity.Finite? && similarity.value > p.minSimilarity
  {
    if brightness < p.minBrightness then TooDark
    else if similarity.Above(p.minSimilarity) then Match
    else NoMatch
  }

  /** The verdict for a usable capture. */
  function Look(s: Session, c: Capture): Verdict
    requires Usable(c)
  {
    Classify(c.frame.brightness, Similarity(s, c.frame), s.params)
  }

  /** How a preview session ends and what it reported on the way. */
  datatype PreviewRun = PreviewRun(result: Result<()>, verdicts: seq<Verdict>)

  /** The loop from its i-th key poll on. A failed read or a failed
      extraction ends the session with that error. */
  function PreviewFrom(s: Session, keys: seq<int>, i: nat): (r: PreviewRun)
    ensures r.verdicts == [] || i + |r.verdicts| <= |s.frames|
    decreases |s.frames| - i
  {
    if KeyAt(keys, i) == Esc then PreviewRun(Ok(()), [])
    else match FrameAt(s.frames, i)
      case Unreadable => PreviewRun(Err(ReadFailed), [])
      case Grabbed(f) =>
        match f.extraction
        case ExtractError => PreviewRun(Err(ExtractFailed), [])
        case Extracted(e) =>
          var rest := PreviewFrom(s, keys, i + 1);
          PreviewRun(rest.result, [Classify(f.brightness, s.cosine(s.reference, e), s.params)] + rest.verdicts)
  }

  /** The loop stops only at ESC or at a failing frame; every frame before the
      stop was usable, polled no ESC, and got its own verdict. */
  lemma {:induction false} PreviewOutcome(s: Session, keys: seq<int>, i: nat)
    ensures var r := PreviewFrom(s, keys, i);
      var n := |r.verdicts|;
      && (forall j :: i <= j < i + n ==>
            KeyAt(keys, j) != Esc && Usable(FrameAt(s.frames, j))
            && r.verdicts[j - i] == Look(s, FrameAt(s.frames, j)))
      && (KeyAt(keys, i + n) == Esc || !Usable(FrameAt(s.frames, i + n)))
      && (r.result.Ok? <==> KeyAt(keys, i + n) == Esc)
      && (r.result == Err(ReadFailed) <==>
            KeyAt(keys, i + n) != Esc && FrameAt(s.frames, i + n).Unreadable?)
      && (r.result == Err(ExtractFailed) <==>
            KeyAt(keys, i + n) != Esc && FrameAt(s.frames, i + n).Grabbed?
            && FrameAt(s.frames, i + n).frame.extraction.ExtractError?)
    decreases |s.frames| - i
  {
    if KeyAt(keys, i) != Esc && Usable(FrameAt(s.frames, i)) {
      PreviewOutcome(s, keys, i + 1);
      var r := PreviewFrom(s, keys, i);
      var rest := PreviewFrom(s, keys, i + 1);
      assert r.verdicts == [Look(s, FrameAt(s.frames, i))] + rest.verdicts;
      forall j | i <= j < i + |r.verdicts|
        ensures KeyAt(keys, j) != Esc && Usable(FrameAt(s.frames, j))
          && r.verdicts[j - i] == Look(s, FrameAt(s.frames, j))
      {
        if j > i {
          assert r.verdicts[j - i] == rest.verdicts[j - (i + 1)];
        }
      }
    }
  }

  /** The loop as the source runs it: one key poll, then one read per pass. */
  method PreviewLoop(s: Session, keys: seq<int>) returns (result: Result<()>, verdicts: seq<Verdict>)
    ensures PreviewRun(result, verdicts) == PreviewFrom(s, keys, 0)
  {
    var i := 0;
    verdicts := [];
    while KeyAt(keys, i) != Esc
      invariant i <= |s.frames|
      invariant PreviewFrom(s, keys, 0)
        == PreviewRun(PreviewFrom(s, keys, i).result, verdicts + PreviewFrom(s, keys, i).verdicts)
      decreases |s.frames| - i
    {
      var capture := FrameAt(s.frames, i);
      if capture.Unreadable? {
        return Err(ReadFailed), verdicts;
      }
      var frame := capture.frame;
      if frame.extraction.ExtractError? {
        return Err(ExtractFailed), verdicts;
      }
      assert i < |s.frames|;
      var rest := PreviewFrom(s, keys, i + 1);
      var similarity := s.cosine(s.reference, frame.extraction.embedding);
      var v: Verdict;
      if frame.brightness < s.params.minBrightness {
        v := TooDark;
      } else if similarity.Above(s.params.minSimilarity) {
        v := Match;
      } else {
        v := NoMatch;
      }
      assert PreviewFrom(s, keys, i) == PreviewRun(rest.result, [v] + rest.verdicts);
      assert verdicts + ([v] + rest.verdicts) == (verdicts + [v]) + rest.verdicts;
      verdicts := verdicts + [v];
      i := i + 1;
    }
    result := Ok(());
    assert verdicts + PreviewFrom(s, keys, i).verdicts == verdicts;
  }
}
