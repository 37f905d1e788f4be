/** The overlay geometry the reader derives (lib/runtime/bstf_reader.c, `bstf_open_ex`)
    against what the front-end simulator writes. */
module Overlay {
  import opened Arith
  import opened BstfReader
  import opened FrontendProofs
  import opened FrontendSpec
  import opened Words
  import RefillSpec
  import RefillTheorems
  import Window

  /** The bit FE_REDIRECT of an event byte. */
  const REDIRECT_BIT: nat := 7

  /** An event as the byte that is written: two bubble bits, then one bit per flag. */
  function Encode(x: FeByte): Byte {
    [x.bubbles % 2 == 1, x.bubbles / 2 % 2 == 1, x.ubtbHit, x.btbOverride, x.dirOk, x.tgtOk, x.wrongPath, x.redirect]
  }

  function Flag(b: bool, weight: nat): nat { if b then weight else 0 }

  /** The byte as a number: the bubbles below four, and one power of two for every flag. */
  lemma {:induction false} EncodedNumber(x: FeByte)
    ensures Window.ByteValue(Encode(x))
            == x.bubbles % 4 + Flag(x.ubtbHit, 0x04) + Flag(x.btbOverride, 0x08) + Flag(x.dirOk, 0x10)
               + Flag(x.tgtOk, 0x20) + Flag(x.wrongPath, 0x40) + Flag(x.redirect, 0x80)
  {
    BubbleBits(x.bubbles);
    ByteIs(Encode(x));
    hide Window.ByteValue; hide Flag;
  }

  lemma {:induction false} BubbleBits(n: nat)
    ensures Flag(n % 2 == 1, 1) + Flag(n / 2 % 2 == 1, 2) == n % 4
  {
  }

  /** The number that the bits from `i` on spell. */
  function Tail(b: seq<bool>, i: nat): nat
    requires i <= |b|
  {
    Window.ByteValue(b[i..])
  }

  lemma {:induction false} TailAt(b: seq<bool>, i: nat, w: nat)
    requires i < |b|
    ensures w * Tail(b, i) == Flag(b[i], w) + (2 * w) * Tail(b, i + 1)
  {
    assert b[i..][1..] == b[i + 1..];
    assert Tail(b, i) == Flag(b[i], 1) + 2 * Tail(b, i + 1);
    hide Tail;
    TwiceAs(w, Tail(b, i + 1));
  }

  lemma {:induction false} TwiceAs(w: nat, x: nat)
    ensures w * (2 * x) == (2 * w) * x && w * (1 + 2 * x) == w + (2 * w) * x
  {
  }

  lemma {:induction false} TailEnds(b: seq<bool>)
    ensures Tail(b, 0) == Window.ByteValue(b) && Tail(b, |b|) == 0
  {
    assert b[0..] == b;
  }

  lemma {:induction false} ByteIs(b: Byte)
    ensures Window.ByteValue(b) == Flag(b[0], 1) + Flag(b[1], 2) + Flag(b[2], 4) + Flag(b[3], 8)
                                   + Flag(b[4], 16) + Flag(b[5], 32) + Flag(b[6], 64) + Flag(b[7], 128)
  {
    hide Window.ByteValue; hide Tail; hide Flag;
    TailEnds(b);
    TailAt(b, 0, 1);
    TailAt(b, 1, 2);
    TailAt(b, 2, 4);
    TailAt(b, 3, 8);
    TailAt(b, 4, 16);
    TailAt(b, 5, 32);
    TailAt(b, 6, 64);
    TailAt(b, 7, 128);
  }

  function EncodeAll(xs: seq<FeByte>): (r: seq<Byte>)
    ensures |r| == |xs|
    ensures forall i :: 0 <= i < |xs| ==> r[i] == Encode(xs[i])
  {
    seq(|xs|, i requires 0 <= i < |xs| => Encode(xs[i]))
  }

  function CountRedirects(fe: seq<Byte>): nat {
    if fe == [] then 0 else CountRedirects(fe[..|fe| - 1]) + (if fe[|fe| - 1][REDIRECT_BIT] then 1 else 0)
  }

  datatype OpenError = FeSize | MemSize | NoRedirect | WpNotMultiple | ShadowNotMultiple

  /** The derived geometry: mispredictions N, depth D of `.fe.wp`, stride of the shadow. */
  datatype Geometry = Opened(nMispred: nat, depth: nat, stride: nat) | Failed(error: OpenError)

  /** What the file sizes and the events have to say of the outcome of a strict opening. */
  ghost predicate Derived(n: nat, wpLen: nat, shadowRecs: nat, g: Geometry) {
    match g
    case Opened(m, depth, stride) =>
      && m == n
      && wpLen == depth * n
      && (if n == 0 then stride == 0 else shadowRecs == stride * n)
    case Failed(FeSize) => false
    case Failed(MemSize) => false
    case Failed(NoRedirect) => wpLen > 0 && n == 0
    case Failed(WpNotMultiple) => n > 0 && forall d: nat :: wpLen != d * n
    case Failed(ShadowNotMultiple) => n > 0 && forall d: nat :: shadowRecs != d * n
  }

  /** Strict opening; an overlay file of no bytes counts as absent. */
  method Derive(fe: seq<Byte>, hdrBlocks: nat, memLen: nat, hdrMem: nat, wpLen: nat, shadowRecs: nat)
    returns (g: Geometry)
    ensures |fe| != hdrBlocks ==> g == Failed(FeSize)
    ensures |fe| == hdrBlocks && memLen != hdrMem ==> g == Failed(MemSize)
    ensures |fe| == hdrBlocks && memLen == hdrMem ==> Derived(CountRedirects(fe), wpLen, shadowRecs, g)
  {
    hide CountRedirects;
    if |fe| != hdrBlocks {
      return Failed(FeSize);
    }
    if memLen != hdrMem {
      return Failed(MemSize);
    }
    var n := Mispredictions(fe);
    var depth, stride := 0, 0;
    if wpLen > 0 {
      if n == 0 {
        return Failed(NoRedirect);
      } else if wpLen % n != 0 {
        NotMultiple(wpLen, n);
        return Failed(WpNotMultiple);
      }
      depth := wpLen / n;
      IsMultiple(wpLen, n);
    }
    if n != 0 && shadowRecs != 0 {
      if shadowRecs % n != 0 {
        NotMultiple(shadowRecs, n);
        return Failed(ShadowNotMultiple);
      }
      stride := shadowRecs / n;
      IsMultiple(shadowRecs, n);
    }
    g := Opened(n, depth, stride);
  }

  /** The redirect bytes of `.fe`. */
  method Mispredictions(fe: seq<Byte>) returns (n: nat)
    ensures n == CountRedirects(fe)
  {
    n := 0;
    for i := 0 to |fe|
      invariant n == CountRedirects(fe[..i])
    {
      assert fe[..i + 1][..i] == fe[..i];
      if fe[i][REDIRECT_BIT] {
        n := n + 1;
      }
    }
    assert fe[..|fe|] == fe;
  }

  lemma {:induction false} IsMultiple(x: nat, n: nat)
    requires n > 0 && x % n == 0
    ensures x == x / n * n
  {
  }

  lemma {:induction false} NotMultiple(x: nat, n: nat)
    requires n > 0 && x % n != 0
    ensures forall d: nat :: x != d * n
  {
    forall d: nat ensures x != d * n { DivExact(d, n); }
  }

  lemma {:induction false} RedirectsEncoded(xs: seq<FeByte>)
    ensures CountRedirects(EncodeAll(xs)) == Redirects(xs)
    decreases |xs|
  {
    if xs != [] {
      assert EncodeAll(xs)[..|xs| - 1] == EncodeAll(xs[..|xs| - 1]);
      RedirectsEncoded(xs[..|xs| - 1]);
    }
  }

  lemma {:induction false} Cancel(a: nat, b: nat, n: nat)
    requires n > 0 && a * n == b * n
    ensures a == b
  {
    DivExact(a, n);
    DivExact(b, n);
  }

  /** Sizes that are multiples open, and with exactly those factors. */
  lemma {:induction false} OpensWith(n: nat, depth: nat, stride: nat, wpLen: nat, shadowRecs: nat, g: Geometry)
    requires wpLen == depth * n && shadowRecs == stride * n && Derived(n, wpLen, shadowRecs, g)
    ensures g.Opened? && g.nMispred == n && (n > 0 ==> g.depth == depth && g.stride == stride)
  {
    if g.Opened? && n > 0 {
      Cancel(g.depth, depth, n);
      Cancel(g.stride, stride, n);
    }
  }

  // ---- the shadow area ----

  /** The record that closes the mispredicted block, and how many records of its shadow are
      real; the rest are padding. */
  datatype ShadowRef = ShadowRef(rec: nat, len: nat)

  /** The blocks of the marked bytes, in order. */
  function RedirectBlocks(fe: seq<Byte>): (bs: seq<nat>)
    ensures |bs| == CountRedirects(fe)
    ensures forall k :: 0 <= k < |bs| ==> bs[k] < |fe| && fe[bs[k]][REDIRECT_BIT]
    ensures forall j, k :: 0 <= j < k < |bs| ==> bs[j] < bs[k]
  {
    if fe == [] then []
    else RedirectBlocks(fe[..|fe| - 1]) + (if fe[|fe| - 1][REDIRECT_BIT] then [|fe| - 1] else [])
  }

  /** No marked block is missed. */
  lemma {:induction false} EveryRedirect(fe: seq<Byte>, b: nat)
    requires b < |fe| && fe[b][REDIRECT_BIT]
    ensures b in RedirectBlocks(fe)
    decreases |fe|
  {
    if b < |fe| - 1 { EveryRedirect(fe[..|fe| - 1], b); }
  }

  /** The trace generator (preprocess/spike/bstf_gen.cc): whenever a block is closed whose
      byte has the mark, a shadow of `stride` records is appended. `closing` and `made` are
      the last record of each block and the real records of its shadow, if it gets one. */
  method WriteShadows(fe: seq<Byte>, closing: seq<nat>, made: seq<nat>, stride: nat)
    returns (refs: seq<ShadowRef>, area: nat)
    requires |closing| == |fe| && |made| == |fe| && forall b :: 0 <= b < |fe| ==> made[b] <= stride
    ensures area == stride * CountRedirects(fe)
    ensures |refs| == CountRedirects(fe)
    ensures var bs := RedirectBlocks(fe);
            forall k :: 0 <= k < |refs| ==> refs[k] == ShadowRef(closing[bs[k]], made[bs[k]])
  {
    hide CountRedirects; hide RedirectBlocks;
    refs, area := [], 0;
    NoRedirects(fe[..0]);
    for b := 0 to |fe|
      invariant area == stride * CountRedirects(fe[..b])
      invariant |refs| == CountRedirects(fe[..b])
      invariant forall k :: 0 <= k < |refs| ==>
                  refs[k] == ShadowRef(closing[RedirectBlocks(fe[..b])[k]], made[RedirectBlocks(fe[..b])[k]])
    {
      NextRedirect(fe, b, stride);
      if fe[b][REDIRECT_BIT] {
        area := area + made[b] + (stride - made[b]);
        refs := refs + [ShadowRef(closing[b], made[b])];
      }
    }
    assert fe[..|fe|] == fe;
  }

  lemma {:induction false} NoRedirects(fe: seq<Byte>)
    requires fe == []
    ensures CountRedirects(fe) == 0
  {
  }

  lemma {:induction false} NextRedirect(fe: seq<Byte>, b: nat, stride: nat)
    requires b < |fe|
    ensures var m := fe[b][REDIRECT_BIT];
            && CountRedirects(fe[..b + 1]) == CountRedirects(fe[..b]) + (if m then 1 else 0)
            && stride * CountRedirects(fe[..b + 1]) == stride * CountRedirects(fe[..b]) + (if m then stride else 0)
            && RedirectBlocks(fe[..b + 1]) == RedirectBlocks(fe[..b]) + (if m then [b] else [])
  {
    assert fe[..b + 1][..b] == fe[..b];
  }

  /** The file offset written into the record of shadow `k`. */
  function ShadowOffset(area: nat, k: nat, stride: nat, recBytes: nat): nat { area + k * stride * recBytes }

  /** What the simulator wrote in separate mode and the generator added to the trace, the
      reader opens with the depth and the stride they were written with, and the number of
      mispredictions. */
  method ReaderAgrees<L, U, B>(e: Env<L, U, B>, s: Sim<L, U, B>, blocks: seq<Blk>, closing: seq<nat>, made: seq<nat>,
                               stride: nat, mem: nat)
    returns (g: Geometry)
    requires GoodEnv(e) && GoodCore(e, s.core) && e.mode == Separate && s.fe == [] && s.wp == []
    requires forall i :: 0 <= i < |blocks| ==> GoodObs(blocks[i].obs)
    requires |closing| == |made| == |blocks| && forall b :: 0 <= b < |blocks| ==> made[b] <= stride
    ensures var r := Run(e, s, blocks);
            && g.Opened? && g.nMispred == Redirects(r.fe)
            && (g.nMispred > 0 ==> g.depth == e.depth && g.stride == stride)
  {
    hide Run; hide CountRedirects; hide Redirects; hide RedirectBlocks;
    var r := Run(e, s, blocks);
    var fe := EncodeAll(r.fe);
    OverlaySizes(e, s, blocks);
    RedirectsEncoded(r.fe);
    var refs, area := WriteShadows(fe, closing, made, stride);
    g := Derive(fe, |blocks|, mem, mem, |r.wp|, area);
    OpensWith(CountRedirects(fe), e.depth, stride, |r.wp|, area, g);
  }

  /** So the events that the reader takes for the shadow of misprediction k are those that the
      simulator wrote for it: the k-th piece of `depth` bytes. */
  lemma {:induction false} ShadowReadsItsEvents(t: Trace, br: Pos, k: nat, m: nat, depth: nat, stride: nat)
    requires ValidTrace(t) && t.feWpDepth == depth > 0 && t.shadowStride == stride > 0 && t.shadowOffset > 0
    requires RefillTheorems.BranchRec(t, br).shadowOff == ShadowOffset(t.shadowOffset, k, stride, t.recBytes)
    requires RefillSpec.ShadowAt(t, br, m).Some?
    ensures var c := RefillSpec.ShadowAt(t, br, m).value;
            k * depth <= c.wpFeBase + c.wpFeBlk < (k + 1) * depth
  {
    hide RefillSpec.ShadowAt;
    RefillTheorems.WrongPathEventInRange(t, br, k, m);
  }
}
