/** The replacement mask of one image slot (cloud-web/image-slot.js): drops start encodes that take
    time, src writes supersede them, the browser reports loads later, and a spinner covers the
    frame meanwhile. Attributes and the img's state are plain values here, and "the img is
    complete" is read as "no load is pending". */
module SlotMask {
  import opened Latch
  import opened Wrappers

  type Url = Option<string>

  /** `stored` is the user's own image as _render sees it; `host` says whether src is on a host that
      demands a credit. */
  datatype Content = Content(stored: Url, src: Url, host: bool, credit: bool)

  /** gen counts drops and src writes; swapGen is the encode that claims the mask, 0 for none;
      `swapping` is the mask. */
  datatype Mask = Mask(gen: nat, swapGen: nat, loadPending: bool, swapping: bool)

  datatype Frame = Frame(filled: bool, imgSrc: Url, hidShowing: bool)

  /** `inFlight` holds the generations whose encode has not come back. */
  datatype Slot = Slot(mask: Mask, frame: Frame, content: Content, inFlight: set<nat>, hasId: bool, connected: bool)

  const BLANK := Slot(Mask(0, 0, false, false), Frame(false, None, false), Content(None, None, false, false), {}, true, false)

  datatype Step =
    | Drop(accepted: bool)
    | EncodeDone(g: nat, url: string, raised: bool)  // raised: the save behind it threw
    | EncodeFailed(g: nat)
    | SrcWrite(src: Url, host: bool)
    | CreditWrite(credit: bool)
    | AttrWrite                       // any other observed attribute
    | IdWrite(hasId: bool, stored: Url)
    | StoreWrite(stored: Url)         // another writer of the shared store
    | ImgSettled                      // the img's load or error event
    | Rerender
    | Connect
    | Disconnect

  predicate Enabled(s: Slot, st: Step) {
    match st
    case EncodeDone(g, _, raised) => g in s.inFlight && (raised ==> s.hasId)
    case EncodeFailed(g) => g in s.inFlight
    case Rerender => s.connected
    case Connect => !s.connected
    case Disconnect => s.connected
    case _ => true
  }

  // ---------------------------------------------------------------- _render and _releaseMask

  function UrlOf(c: Content): Url {
    if c.stored.Some? then c.stored else c.src
  }

  predicate AttrError(c: Content) {
    !c.credit && c.stored.None? && c.src.Some? && c.host
  }

  predicate Shows(c: Content) {
    UrlOf(c).Some? && !AttrError(c)
  }

  function Release(m: Mask): Mask {
    if m.swapGen == 0 && !m.loadPending then m.(swapping := false) else m
  }

  function RenderMask(m: Mask, f: Frame, c: Content): Mask {
    if !Shows(c) then m.(swapping := false, loadPending := false)
    else if f.imgSrc != UrlOf(c) then m.(swapping := m.swapping || f.imgSrc.Some? || f.hidShowing, loadPending := true)
    else Release(m)
  }

  function RenderFrame(f: Frame, c: Content): Frame {
    if Shows(c) then Frame(true, UrlOf(c), false) else Frame(false, None, AttrError(c) && f.imgSrc.Some?)
  }

  /** The content part of _render. */
  function Render(s: Slot): Slot {
    s.(mask := RenderMask(s.mask, s.frame, s.content), frame := RenderFrame(s.frame, s.content))
  }

  function Notified(s: Slot): Slot {
    if s.connected then Render(s) else s
  }

  function Superseded(m: Mask): Mask {
    m.(gen := m.gen + 1, swapGen := 0)
  }

  function Apply(s: Slot, st: Step): Slot
    requires Enabled(s, st)
  {
    match st
    case Drop(accepted) =>
      if !accepted then s
      else
        var g := s.mask.gen + 1;
        s.(inFlight := s.inFlight + {g},
           mask := if s.frame.filled then s.mask.(gen := g, swapping := true, swapGen := g) else s.mask.(gen := g))
    case EncodeDone(g, url, raised) =>
      var s1 := s.(inFlight := s.inFlight - {g});
      if g != s.mask.gen then s1
      else
        var s2 := s1.(mask := s.mask.(swapGen := 0), content := s.content.(stored := Some(url)));
        var s3 := if s.hasId then Notified(s2) else Render(s2);
        if raised then s3.(mask := Release(s3.mask)) else s3
    case EncodeFailed(g) =>
      s.(inFlight := s.inFlight - {g}, mask := if g != s.mask.gen then s.mask else Release(s.mask.(swapGen := 0)))
    case SrcWrite(src, host) =>
      Render(s.(content := s.content.(src := src, host := host), mask := if src != s.content.src then Superseded(s.mask) else s.mask))
    case AttrWrite => Render(s)
    case CreditWrite(credit) => Render(s.(content := s.content.(credit := credit)))
    case IdWrite(hasId, stored) => Render(s.(hasId := hasId, content := s.content.(stored := stored)))
    case StoreWrite(stored) => Notified(s.(content := s.content.(stored := stored)))
    case ImgSettled => s.(mask := Release(s.mask.(loadPending := false)))
    case Rerender => Render(s)
    case Connect => Render(s.(connected := true))
    case Disconnect => s.(connected := false)
  }

  ghost predicate IsTrace(states: seq<Slot>, steps: seq<Step>) {
    && |states| == |steps| + 1 && states[0] == BLANK
    && forall i :: 0 <= i < |steps| ==> Enabled(states[i], steps[i]) && states[i + 1] == Apply(states[i], steps[i])
  }

  // ---------------------------------------------------------------- the element's own fields

  class ImageSlot {
    var gen: nat
    var swapGen: nat
    var loadPending: bool
    var swapping: bool
    var frame: Frame
    var content: Content
    var hasId: bool
    var connected: bool
    ghost var inFlight: set<nat>

    ghost function View(): Slot
      reads this
    {
      Slot(Mask(gen, swapGen, loadPending, swapping), frame, content, inFlight, hasId, connected)
    }

    constructor ()
      ensures View() == BLANK
    {
      gen, swapGen, loadPending, swapping := 0, 0, false, false;
      frame, content := Frame(false, None, false), Content(None, None, false, false);
      hasId, connected, inFlight := true, false, {};
    }

    method ReleaseMask()
      modifies this`swapping
      ensures View() == old(View()).(mask := Release(old(View()).mask))
    {
      if swapGen == 0 && !loadPending { swapping := false; }
    }

    method RenderContent()
      modifies this
      ensures View() == Render(old(View()))
    {
      if Shows(content) {
        if frame.imgSrc != UrlOf(content) {
          if frame.imgSrc.Some? || frame.hidShowing { swapping := true; }
          loadPending := true;
        } else {
          ReleaseMask();
        }
        frame := Frame(true, UrlOf(content), false);
      } else {
        swapping, loadPending := false, false;
        frame := Frame(false, None, AttrError(content) && frame.imgSrc.Some?);
      }
    }

    /** _ingest up to its await. */
    method Ingest(accepted: bool) returns (g: nat)
      modifies this
      ensures View() == Apply(old(View()), Drop(accepted)) && g == gen
    {
      if accepted {
        gen := gen + 1;
        inFlight := inFlight + {gen};
        if frame.filled { swapping, swapGen := true, gen; }
      }
      g := gen;
    }

    /** _ingest after its await, the encode having succeeded; a save that throws ends in its catch. */
    method Encoded(g: nat, url: string, raised: bool)
      requires g in inFlight && (raised ==> hasId)
      modifies this
      ensures View() == Apply(old(View()), EncodeDone(g, url, raised))
    {
      inFlight := inFlight - {g};
      if g != gen { return; }
      swapGen := 0;
      content := content.(stored := Some(url));
      if connected || !hasId { RenderContent(); }
      if raised {
        swapGen := 0;
        ReleaseMask();
      }
    }

    /** _ingest after its await, the encode having failed. */
    method EncodeBroke(g: nat)
      requires g in inFlight
      modifies this
      ensures View() == Apply(old(View()), EncodeFailed(g))
    {
      inFlight := inFlight - {g};
      if g != gen { return; }
      swapGen := 0;
      ReleaseMask();
    }

    /** attributeChangedCallback for src. */
    method SrcChanged(src: Url, host: bool)
      modifies this
      ensures View() == Apply(old(View()), SrcWrite(src, host))
    {
      if src != content.src {
        gen := gen + 1;
        swapGen := 0;
      }
      content := content.(src := src, host := host);
      RenderContent();
    }

    /** The img's load and error listeners. */
    method OnImgSettled()
      modifies this
      ensures View() == Apply(old(View()), ImgSettled)
    {
      loadPending := false;
      ReleaseMask();
    }
  }

  // ---------------------------------------------------------------- what every step keeps

  /** A claim belongs to the newest encode, which is still running; and on a connected slot a raised
      mask waits for a load or for such a claim. */
  ghost predicate MaskOk(s: Slot) {
    && (s.mask.swapGen != 0 ==> s.mask.gen in s.inFlight)
    && (s.connected ==> Waits(s.mask))
  }

  predicate Waits(m: Mask) {
    m.swapping ==> m.loadPending || m.swapGen != 0
  }

  lemma MaskStep(s: Slot, st: Step)
    requires MaskOk(s) && Enabled(s, st)
    ensures MaskOk(Apply(s, st))
  {
  }

  lemma {:induction false} MaskAlways(states: seq<Slot>, steps: seq<Step>, i: nat)
    requires IsTrace(states, steps) && i < |states|
    ensures MaskOk(states[i])
  {
    if i == 0 {
    } else {
      MaskAlways(states, steps, i - 1);
      MaskStep(states[i - 1], steps[i - 1]);
    }
  }

  // ---------------------------------------------------------------- the guarantees

  /** The spinner cannot stick: on a connected slot it is down whenever no encode is running and no
      load is pending; a claim is always the newest encode's, still running. */
  lemma SpinnerCannotStick(states: seq<Slot>, steps: seq<Step>, i: nat)
    requires IsTrace(states, steps) && i < |states|
    ensures states[i].mask.swapGen != 0 ==> states[i].mask.gen in states[i].inFlight
    ensures states[i].connected && states[i].mask.swapping ==> states[i].mask.loadPending || states[i].mask.swapGen != 0
    ensures states[i].connected && states[i].inFlight == {} && !states[i].mask.loadPending ==> !states[i].mask.swapping
  {
    MaskAlways(states, steps, i);
  }

  /** Nor does it lift early: a step takes the mask off only when it leaves no load pending and no
      claim, or leaves the slot with no image at all. */
  lemma MaskLiftsOnlyWhenSettled(s: Slot, st: Step)
    requires Enabled(s, st) && s.mask.swapping && !Apply(s, st).mask.swapping
    ensures var s' := Apply(s, st); (!s'.mask.loadPending && s'.mask.swapGen == 0) || !s'.frame.filled
  {
  }

  // ---------------------------------------------------------------- what is shown

  /** The user's own image wins over src, and a src that owes a credit is not shown without one. */
  ghost predicate ShowsContent(s: Slot) {
    && s.frame.imgSrc == (match s.content.stored
                          case Some(own) => Some(own)
                          case None => if s.content.host && !s.content.credit then None else s.content.src)
    && (s.frame.filled <==> s.frame.imgSrc.Some?)
  }

  lemma ShowsStep(s: Slot, st: Step)
    requires Enabled(s, st) && (s.connected ==> ShowsContent(s))
    ensures Apply(s, st).connected ==> ShowsContent(Apply(s, st))
  {
  }

  /** A slot on the page always shows the user's image if there is one, and else its src unless that
      owes a credit it does not have. */
  lemma {:induction false} ShowsTheRightImage(states: seq<Slot>, steps: seq<Step>, i: nat)
    requires IsTrace(states, steps) && i < |states|
    ensures states[i].connected ==> ShowsContent(states[i])
  {
    if i == 0 {
    } else {
      ShowsTheRightImage(states, steps, i - 1);
      ShowsStep(states[i - 1], steps[i - 1]);
    }
  }

  /** The user's image changes only by the newest encode, another writer, or a new id; src and credit
      only by their own writes. */
  lemma ContentChangesOnlyBy(s: Slot, st: Step)
    requires Enabled(s, st)
    ensures var c, c' := s.content, Apply(s, st).content;
            && c'.stored == (match st
                             case EncodeDone(g, url, _) => if g == s.mask.gen then Some(url) else c.stored
                             case IdWrite(_, stored) => stored
                             case StoreWrite(stored) => stored
                             case _ => c.stored)
            && c'.src == (if st.SrcWrite? then st.src else c.src)
            && c'.credit == if st.CreditWrite? then st.credit else c.credit
  {
  }

  // ---------------------------------------------------------------- what is masked

  /** An image that takes another's place does so under the mask, with its load pending. */
  lemma SwapIsMasked(s: Slot, st: Step)
    requires Enabled(s, st)
    requires s.frame.imgSrc.Some? && Apply(s, st).frame.imgSrc.Some? && s.frame.imgSrc != Apply(s, st).frame.imgSrc
    ensures Apply(s, st).mask.swapping && Apply(s, st).mask.loadPending
  {
  }

  /** So does one that comes back after its src was written a moment before its credit. */
  lemma PickIsMasked(s: Slot, src: string)
    requires s.frame.imgSrc.Some? && s.content.stored.None? && !s.content.credit
    ensures var s1 := Apply(s, SrcWrite(Some(src), true));
            var s2 := Apply(s1, CreditWrite(true));
            && !s1.frame.filled && s1.frame.imgSrc.None? && !s1.mask.swapping
            && s2.frame.imgSrc == Some(src) && s2.mask.swapping && s2.mask.loadPending
  {
  }

  /** The generations whose encode was started and has not come back, by the steps. */
  ghost function Encoding(states: seq<Slot>, steps: seq<Step>, i: nat): set<nat>
    requires |states| == |steps| + 1 && i <= |steps|
  {
    if i == 0 then {}
    else
      var before, st := Encoding(states, steps, i - 1), steps[i - 1];
      match st
      case Drop(true) => before + {states[i].mask.gen}
      case EncodeDone(g, _, _) => before - {g}
      case EncodeFailed(g) => before - {g}
      case _ => before
  }

  lemma {:induction false} InFlightIsTrue(states: seq<Slot>, steps: seq<Step>, i: nat)
    requires IsTrace(states, steps) && i < |states|
    ensures states[i].inFlight == Encoding(states, steps, i)
  {
    if i == 0 {
    } else {
      InFlightIsTrue(states, steps, i - 1);
    }
  }

  ghost predicate Claimed(s: Slot, g: nat) {
    s.mask.gen == g && s.mask.swapGen == g && s.mask.swapping
  }

  lemma ClaimStep(s: Slot, st: Step, g: nat)
    requires Enabled(s, st) && Claimed(s, g) && g > 0 && g in s.inFlight
    requires var s' := Apply(s, st); s'.mask.gen == g && g in s'.inFlight && s'.frame.filled
    ensures Claimed(Apply(s, st), g)
  {
  }

  /** From a drop on a shown image until its encode comes back, the old image stays under the mask, as
      long as nothing newer comes and the slot is not emptied. */
  lemma {:induction false} MaskedWhileEncoding(states: seq<Slot>, steps: seq<Step>, i: nat, j: nat)
    requires IsTrace(states, steps) && i < j < |states| && steps[i] == Drop(true) && states[i].frame.filled
    requires var g := states[i + 1].mask.gen;
             forall k :: i < k <= j ==> states[k].mask.gen == g && g in Encoding(states, steps, k) && states[k].frame.filled
    ensures Claimed(states[j], states[i + 1].mask.gen)
  {
    if j == i + 1 {
    } else {
      MaskedWhileEncoding(states, steps, i, j - 1);
      InFlightIsTrue(states, steps, j - 1);
      InFlightIsTrue(states, steps, j);
      ClaimStep(states[j - 1], steps[j - 1], states[i + 1].mask.gen);
    }
  }

  // ---------------------------------------------------------------- off the page

  /** The spinner is stuck: it is up, and nothing is there to take it down. */
  predicate Stuck(s: Slot) {
    !Waits(s.mask)
  }

  /** The newest encode lands in the store while the slot is off the page, so nothing renders. */
  predicate Sticks(s: Slot, st: Step) {
    && st.EncodeDone? && !st.raised && st.g == s.mask.gen
    && s.hasId && !s.connected && s.mask.swapping && !s.mask.loadPending
  }

  /** A render, a settling img, a further drop on the filled slot, or the newest encode failing or its
      save throwing. */
  predicate Unsticks(s: Slot, st: Step) {
    match st
    case Drop(accepted) => accepted && s.frame.filled
    case EncodeDone(g, _, raised) => g == s.mask.gen && (s.connected || !s.hasId || raised)
    case EncodeFailed(g) => g == s.mask.gen
    case StoreWrite(_) => s.connected
    case Disconnect => false
    case _ => true
  }

  lemma StuckStep(s: Slot, st: Step)
    requires Enabled(s, st)
    ensures Stuck(Apply(s, st)) <==> if Stuck(s) then !Unsticks(s, st) else Sticks(s, st)
    ensures Sticks(s, st) ==> Stuck(Apply(s, st))
  {
  }

  ghost function Sticking(states: seq<Slot>, steps: seq<Step>): seq<bool>
    requires |states| == |steps| + 1
  {
    seq(|steps|, k requires 0 <= k < |steps| => Sticks(states[k], steps[k]))
  }

  ghost function Unsticking(states: seq<Slot>, steps: seq<Step>): seq<bool>
    requires |states| == |steps| + 1
  {
    seq(|steps|, k requires 0 <= k < |steps| => Unsticks(states[k], steps[k]))
  }

  /** The spinner is stuck if and only if the newest encode landed while the slot was off the page,
      under a raised mask with no load pending, and nothing of what unsticks it came since. A stuck
      slot is off the page. */
  lemma StuckExactly(states: seq<Slot>, steps: seq<Step>, i: nat)
    requires IsTrace(states, steps) && i < |states|
    ensures Stuck(states[i]) <==> SetSince(Sticking(states, steps), Unsticking(states, steps), i)
    ensures Stuck(states[i]) ==> !states[i].connected
  {
    MaskAlways(states, steps, i);
    var on := seq(|states|, k requires 0 <= k < |states| => Stuck(states[k]));
    var sets, clears := Sticking(states, steps), Unsticking(states, steps);
    forall k | 0 <= k < |steps|
      ensures (sets[k] ==> on[k + 1]) && (on[k + 1] <==> if on[k] then !clears[k] else sets[k])
    {
      StuckStep(states[k], steps[k]);
    }
    HeldSinceSet(on, sets, clears, i);
  }

  /** It does stick: an image shown, a replacement dropped, the slot taken off the page, and then the
      encode landing. */
  lemma StickingHappens(src: string, url: string) returns (states: seq<Slot>, steps: seq<Step>)
    ensures IsTrace(states, steps)
    ensures steps == [Connect, SrcWrite(Some(src), false), ImgSettled, Drop(true), Disconnect, EncodeDone(2, url, false)]
    ensures Stuck(states[|steps|])
  {
    steps := [Connect, SrcWrite(Some(src), false), ImgSettled, Drop(true), Disconnect, EncodeDone(2, url, false)];
    var s1 := Apply(BLANK, steps[0]);
    var s2 := Apply(s1, steps[1]);
    var s3 := Apply(s2, steps[2]);
    var s4 := Apply(s3, steps[3]);
    assert s4.mask == Mask(2, 2, false, true) && s4.inFlight == {2};
    var s5 := Apply(s4, steps[4]);
    states := [BLANK, s1, s2, s3, s4, s5, Apply(s5, steps[5])];
  }

  predicate Supersedes(s: Slot, st: Step) {
    (st.Drop? && st.accepted) || (st.SrcWrite? && st.src != s.content.src)
  }

  lemma GenStep(s: Slot, st: Step)
    requires Enabled(s, st)
    ensures Apply(s, st).mask.gen == if Supersedes(s, st) then s.mask.gen + 1 else s.mask.gen
  {
  }

  ghost predicate Overtaken(states: seq<Slot>, steps: seq<Step>, i: nat, j: nat)
    requires IsTrace(states, steps) && j < |states|
  {
    exists k :: i <= k < j && Supersedes(states[k], steps[k])
  }

  /** A counter that moves by one exactly at the marked steps is larger exactly after a marked one. */
  lemma {:induction false} CountsMarks(gens: seq<nat>, marked: seq<bool>, i: nat, j: nat)
    requires |gens| == |marked| + 1 && i <= j < |gens|
    requires forall k :: 0 <= k < |marked| ==> gens[k + 1] == if marked[k] then gens[k] + 1 else gens[k]
    ensures gens[i] <= gens[j] && (gens[i] < gens[j] <==> exists k :: i <= k < j && marked[k])
  {
    if i == j {
    } else {
      CountsMarks(gens, marked, i, j - 1);
      assert marked[j - 1] || !marked[j - 1];
    }
  }

  lemma GenerationsRise(states: seq<Slot>, steps: seq<Step>, i: nat, j: nat)
    requires IsTrace(states, steps) && i <= j < |states|
    ensures states[i].mask.gen <= states[j].mask.gen
    ensures Overtaken(states, steps, i, j) <==> states[i].mask.gen < states[j].mask.gen
  {
    var gens := seq(|states|, k requires 0 <= k < |states| => states[k].mask.gen);
    var marked := seq(|steps|, k requires 0 <= k < |steps| => Supersedes(states[k], steps[k]));
    forall k | 0 <= k < |steps| ensures gens[k + 1] == if marked[k] then gens[k] + 1 else gens[k] {
      GenStep(states[k], steps[k]);
    }
    CountsMarks(gens, marked, i, j);
    assert forall k :: 0 <= k < |steps| ==> marked[k] == Supersedes(states[k], steps[k]);
  }

  /** An encode stores its image if and only if no newer drop or src write overtook it. */
  lemma OvertakenEncodeNeverStores(states: seq<Slot>, steps: seq<Step>, i: nat, j: nat)
    requires IsTrace(states, steps) && i < j < |steps|
    requires steps[i] == Drop(true) && steps[j].EncodeDone? && steps[j].g == states[i + 1].mask.gen
    ensures states[j + 1].content.stored ==
              if Overtaken(states, steps, i + 1, j) then states[j].content.stored else Some(steps[j].url)
  {
    GenerationsRise(states, steps, i + 1, j);
  }
}
