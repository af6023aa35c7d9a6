/**
 * The ROI batch engine as its reference computation pins it down: for every ROI
 * of the configuration, one image per requested quantity (raw, net, channel at
 * min, channel at max), each holding one value per spectrum of the stack, with
 * a fixed naming scheme.  The stack is flattened to a sequence of spectra.
 */
module StackRoiBatch {
  import opened Wrappers
  import opened RoiStatistics

  datatype RoiType = Channel

  /** One entry of `config["ROI"]["roidict"]`; the counts are absent until the reference loop stores them. */
  datatype RoiEntry = RoiEntry(from: real, to: real, roiType: RoiType, rawcounts: Option<real>, netcounts: Option<real>)

  datatype Quantity = Raw | Net | AtMin | AtMax

  datatype BatchError = ShapeMismatch | MissingDefinition(roi: string)

  /** `names[i]` labels `images[i]`. */
  datatype Output = Output(names: seq<string>, images: seq<seq<real>>)

  function RawName(roi: string): string { "ROI " + roi + "" }
  function NetName(roi: string): string { "ROI " + roi + " Net" }
  function MinName(roi: string): string { "ROI " + roi + " Channel at Min." }
  function MaxName(roi: string): string { "ROI " + roi + " Channel at Max." }

  function ImageName(q: Quantity, roi: string): string {
    match q
    case Raw => RawName(roi)
    case Net => NetName(roi)
    case AtMin => MinName(roi)
    case AtMax => MaxName(roi)
  }

  /** The quantities computed for every ROI, in output order: raw, then net, then min and max locations. */
  function Quantities(xAtMinMax: bool, net: bool): (qs: seq<Quantity>)
    ensures Raw in qs
    ensures Net in qs <==> net
    ensures AtMin in qs <==> xAtMinMax
    ensures AtMax in qs <==> xAtMinMax
    ensures Distinct(qs)
  {
    [Raw] + (if net then [Net] else []) + (if xAtMinMax then [AtMin, AtMax] else [])
  }

  function Measure(q: Quantity, x: seq<real>, y: seq<real>, e: RoiEntry): real
    requires |x| == |y|
  {
    match q
    case Raw => RawCounts(x, y, e.from, e.to)
    case Net => NetCounts(x, y, e.from, e.to)
    case AtMin => ChannelAtMin(x, y, e.from, e.to)
    case AtMax => ChannelAtMax(x, y, e.from, e.to)
  }

  predicate ShapesAgree(x: seq<real>, stack: seq<seq<real>>) {
    forall s :: 0 <= s < |stack| ==> |stack[s]| == |x|
  }

  /** One value per spectrum. */
  function Image(q: Quantity, x: seq<real>, stack: seq<seq<real>>, e: RoiEntry): (img: seq<real>)
    requires ShapesAgree(x, stack)
    ensures |img| == |stack|
    ensures forall s :: 0 <= s < |stack| ==> img[s] == Measure(q, x, stack[s], e)
  {
    seq(|stack|, s requires 0 <= s < |stack| => Measure(q, x, stack[s], e))
  }

  function RoiOutput(x: seq<real>, stack: seq<seq<real>>, roi: string, e: RoiEntry, qs: seq<Quantity>): (o: Output)
    requires ShapesAgree(x, stack)
    ensures |o.names| == |o.images| == |qs|
    ensures forall i :: 0 <= i < |qs| ==> o.names[i] == ImageName(qs[i], roi) && o.images[i] == Image(qs[i], x, stack, e)
  {
    Output(seq(|qs|, i requires 0 <= i < |qs| => ImageName(qs[i], roi)),
           seq(|qs|, i requires 0 <= i < |qs| => Image(qs[i], x, stack, e)))
  }

  predicate AllDefined(roilist: seq<string>, roidict: map<string, RoiEntry>) {
    forall p :: 0 <= p < |roilist| ==> roilist[p] in roidict
  }

  /** The images of every ROI of roilist, ROI after ROI. */
  function Collect(x: seq<real>, stack: seq<seq<real>>, roilist: seq<string>, roidict: map<string, RoiEntry>, qs: seq<Quantity>): (o: Output)
    requires ShapesAgree(x, stack) && AllDefined(roilist, roidict)
    ensures |o.names| == |o.images|
    ensures forall k :: 0 <= k < |o.images| ==> |o.images[k]| == |stack|
  {
    if roilist == [] then Output([], [])
    else
      var h := RoiOutput(x, stack, roilist[0], roidict[roilist[0]], qs);
      var t := Collect(x, stack, roilist[1..], roidict, qs);
      Output(h.names + t.names, h.images + t.images)
  }

  /** First ROI of roilist without a definition. */
  function FirstMissing(roilist: seq<string>, roidict: map<string, RoiEntry>): (roi: string)
    requires !AllDefined(roilist, roidict)
    ensures roi !in roidict
    ensures exists p :: 0 <= p < |roilist| && roilist[p] == roi
  {
    if roilist[0] !in roidict then roilist[0]
    else
      assert !AllDefined(roilist[1..], roidict) by {
        var p :| 0 <= p < |roilist| && roilist[p] !in roidict;
        assert roilist[1..][p - 1] == roilist[p];
      }
      var roi := FirstMissing(roilist[1..], roidict);
      ghost var p :| 0 <= p < |roilist[1..]| && roilist[1..][p] == roi;
      assert roilist[p + 1] == roi;
      roi
  }

  /** `batchROIMultipleSpectra(x, y, configuration, xAtMinMax, net)`: every image, or the configuration error. */
  function Batch(x: seq<real>, stack: seq<seq<real>>, roilist: seq<string>, roidict: map<string, RoiEntry>,
                 xAtMinMax: bool, net: bool): Result<Output, BatchError>
  {
    if !ShapesAgree(x, stack) then Failure(ShapeMismatch)
    else if !AllDefined(roilist, roidict) then Failure(MissingDefinition(FirstMissing(roilist, roidict)))
    else Success(Collect(x, stack, roilist, roidict, Quantities(xAtMinMax, net)))
  }

  // ---------------------------------------------------------------------------
  // Properties of the engine

  /** The call fails exactly on a stack/axis length mismatch or a ROI without definition. */
  lemma BatchFailsExactly(x: seq<real>, stack: seq<seq<real>>, roilist: seq<string>, roidict: map<string, RoiEntry>,
                          xAtMinMax: bool, net: bool)
    ensures Batch(x, stack, roilist, roidict, xAtMinMax, net).Failure?
            <==> (exists s :: 0 <= s < |stack| && |stack[s]| != |x|)
                 || (exists p :: 0 <= p < |roilist| && roilist[p] !in roidict)
    ensures Batch(x, stack, roilist, roidict, xAtMinMax, net) == Failure(ShapeMismatch)
            <==> exists s :: 0 <= s < |stack| && |stack[s]| != |x|
  {
  }

  /** Every output image has the stack's leading shape, and names pair one-to-one with images. */
  lemma BatchShape(x: seq<real>, stack: seq<seq<real>>, roilist: seq<string>, roidict: map<string, RoiEntry>,
                   xAtMinMax: bool, net: bool)
    requires Batch(x, stack, roilist, roidict, xAtMinMax, net).Success?
    ensures var o := Batch(x, stack, roilist, roidict, xAtMinMax, net).value;
            |o.names| == |o.images| == |roilist| * (2 + (if xAtMinMax then 2 else 0) - (if net then 0 else 1))
            && forall k :: 0 <= k < |o.images| ==> |o.images[k]| == |stack|
  {
    var qs := Quantities(xAtMinMax, net);
    CollectLength(x, stack, roilist, roidict, qs);
    assert |qs| == 2 + (if xAtMinMax then 2 else 0) - (if net then 0 else 1);
  }

  /** |roilist| blocks of |qs| images each. */
  lemma {:induction false} CollectLength(x: seq<real>, stack: seq<seq<real>>, roilist: seq<string>, roidict: map<string, RoiEntry>,
                                         qs: seq<Quantity>)
    requires ShapesAgree(x, stack) && AllDefined(roilist, roidict)
    ensures |Collect(x, stack, roilist, roidict, qs).names| == |roilist| * |qs|
  {
    if roilist != [] {
      CollectUnfold(x, stack, roilist, roidict, qs);
      CollectLength(x, stack, roilist[1..], roidict, qs);
      assert |roilist| * |qs| == |qs| + |roilist[1..]| * |qs|;
    }
  }

  lemma {:induction false} CollectNames(x: seq<real>, stack: seq<seq<real>>, roilist: seq<string>, roidict: map<string, RoiEntry>,
                                        qs: seq<Quantity>, n: string)
    requires ShapesAgree(x, stack) && AllDefined(roilist, roidict)
    ensures n in Collect(x, stack, roilist, roidict, qs).names
            <==> exists p, q :: 0 <= p < |roilist| && q in qs && n == ImageName(q, roilist[p])
  {
    if roilist != [] {
      CollectUnfold(x, stack, roilist, roidict, qs);
      CollectNames(x, stack, roilist[1..], roidict, qs, n);
      var h := RoiOutput(x, stack, roilist[0], roidict[roilist[0]], qs);
      var t := Collect(x, stack, roilist[1..], roidict, qs);
      if n in h.names {
        var i :| 0 <= i < |h.names| && h.names[i] == n;
        assert qs[i] in qs && n == ImageName(qs[i], roilist[0]);
      } else if n in t.names {
        var p, q :| 0 <= p < |roilist[1..]| && q in qs && n == ImageName(q, roilist[1..][p]);
        assert n == ImageName(q, roilist[p + 1]);
      }
      if exists p, q :: 0 <= p < |roilist| && q in qs && n == ImageName(q, roilist[p]) {
        var p, q :| 0 <= p < |roilist| && q in qs && n == ImageName(q, roilist[p]);
        if p == 0 {
          var i :| 0 <= i < |qs| && qs[i] == q;
          assert h.names[i] == n;
        } else {
          assert roilist[1..][p - 1] == roilist[p];
        }
      }
    }
  }

  lemma CollectUnfold(x: seq<real>, stack: seq<seq<real>>, roilist: seq<string>, roidict: map<string, RoiEntry>,
                      qs: seq<Quantity>)
    requires ShapesAgree(x, stack) && AllDefined(roilist, roidict) && roilist != []
    ensures AllDefined(roilist[1..], roidict)
    ensures var h := RoiOutput(x, stack, roilist[0], roidict[roilist[0]], qs);
            var t := Collect(x, stack, roilist[1..], roidict, qs);
            Collect(x, stack, roilist, roidict, qs) == Output(h.names + t.names, h.images + t.images)
  {
    assert AllDefined(roilist[1..], roidict) by {
      forall p | 0 <= p < |roilist[1..]| ensures roilist[1..][p] in roidict {
        assert roilist[1..][p] == roilist[p + 1];
      }
    }
  }

  lemma {:induction false} CollectImages(x: seq<real>, stack: seq<seq<real>>, roilist: seq<string>, roidict: map<string, RoiEntry>,
                                         qs: seq<Quantity>, p: nat, q: Quantity)
    returns (k: nat)
    requires ShapesAgree(x, stack) && AllDefined(roilist, roidict)
    requires p < |roilist| && q in qs
    ensures var o := Collect(x, stack, roilist, roidict, qs);
            k < |o.names| && o.names[k] == ImageName(q, roilist[p])
            && o.images[k] == Image(q, x, stack, roidict[roilist[p]])
  {
    CollectUnfold(x, stack, roilist, roidict, qs);
    var h := RoiOutput(x, stack, roilist[0], roidict[roilist[0]], qs);
    var t := Collect(x, stack, roilist[1..], roidict, qs);
    if p == 0 {
      k := HeadImage(h, t, x, stack, roilist[0], roidict[roilist[0]], qs, q);
    } else {
      assert roilist[1..][p - 1] == roilist[p];
      var j := CollectImages(x, stack, roilist[1..], roidict, qs, p - 1, q);
      k := TailImage(h, t, j);
    }
  }

  /** The image of quantity q of the first ROI sits in the first block. */
  lemma HeadImage(h: Output, t: Output, x: seq<real>, stack: seq<seq<real>>, roi: string, e: RoiEntry,
                  qs: seq<Quantity>, q: Quantity)
    returns (k: nat)
    requires ShapesAgree(x, stack) && h == RoiOutput(x, stack, roi, e, qs) && q in qs
    ensures k < |h.names| && k < |h.images|
    ensures (h.names + t.names)[k] == ImageName(q, roi)
    ensures (h.images + t.images)[k] == Image(q, x, stack, e)
  {
    var i :| 0 <= i < |qs| && qs[i] == q;
    k := i;
    assert (h.names + t.names)[k] == h.names[k];
    assert (h.images + t.images)[k] == h.images[k];
  }

  /** Entry j of the later blocks sits |h.names| further on. */
  lemma TailImage(h: Output, t: Output, j: nat) returns (k: nat)
    requires |h.names| == |h.images| && j < |t.names| && j < |t.images|
    ensures k == |h.names| + j && k < |h.names + t.names| && k < |h.images + t.images|
    ensures (h.names + t.names)[k] == t.names[j]
    ensures (h.images + t.images)[k] == t.images[j]
  {
    k := |h.names| + j;
  }

  /** n is the name of an image requested for ROI roi: "ROI roi" always, "ROI roi Net" with net,
      "ROI roi Channel at Min." and "ROI roi Channel at Max." with xAtMinMax. */
  predicate Requested(n: string, roi: string, xAtMinMax: bool, net: bool) {
    n == RawName(roi) || (net && n == NetName(roi)) || (xAtMinMax && (n == MinName(roi) || n == MaxName(roi)))
  }

  lemma RequestedQuantity(n: string, roi: string, xAtMinMax: bool, net: bool)
    ensures Requested(n, roi, xAtMinMax, net)
            <==> exists q :: q in Quantities(xAtMinMax, net) && n == ImageName(q, roi)
  {
    var qs := Quantities(xAtMinMax, net);
    if n == RawName(roi) {
      assert Raw in qs && n == ImageName(Raw, roi);
    } else if net && n == NetName(roi) {
      assert Net in qs && n == ImageName(Net, roi);
    } else if xAtMinMax && n == MinName(roi) {
      assert AtMin in qs && n == ImageName(AtMin, roi);
    } else if xAtMinMax && n == MaxName(roi) {
      assert AtMax in qs && n == ImageName(AtMax, roi);
    }
  }

  /** The names are exactly the requested names of the ROIs of roilist. */
  lemma BatchNames(x: seq<real>, stack: seq<seq<real>>, roilist: seq<string>, roidict: map<string, RoiEntry>,
                   xAtMinMax: bool, net: bool, n: string)
    requires Batch(x, stack, roilist, roidict, xAtMinMax, net).Success?
    ensures n in Batch(x, stack, roilist, roidict, xAtMinMax, net).value.names
            <==> exists p :: 0 <= p < |roilist| && Requested(n, roilist[p], xAtMinMax, net)
  {
    var qs := Quantities(xAtMinMax, net);
    CollectNames(x, stack, roilist, roidict, qs, n);
    forall p | 0 <= p < |roilist| {
      RequestedQuantity(n, roilist[p], xAtMinMax, net);
    }
  }

  /** For every ROI and every requested quantity there is an image of that name holding, for each
      spectrum, the reference value of that quantity. */
  lemma BatchImages(x: seq<real>, stack: seq<seq<real>>, roilist: seq<string>, roidict: map<string, RoiEntry>,
                    xAtMinMax: bool, net: bool, p: nat, q: Quantity)
    requires Batch(x, stack, roilist, roidict, xAtMinMax, net).Success?
    requires p < |roilist| && q in Quantities(xAtMinMax, net)
    ensures var o := Batch(x, stack, roilist, roidict, xAtMinMax, net).value;
            exists k :: 0 <= k < |o.names| && o.names[k] == ImageName(q, roilist[p])
              && forall s :: 0 <= s < |stack| ==> o.images[k][s] == Measure(q, x, stack[s], roidict[roilist[p]])
  {
    var k := CollectImages(x, stack, roilist, roidict, Quantities(xAtMinMax, net), p, q);
    var o := Batch(x, stack, roilist, roidict, xAtMinMax, net).value;
    assert forall s :: 0 <= s < |stack| ==> o.images[k][s] == Measure(q, x, stack[s], roidict[roilist[p]]);
  }

  /** No entry occurs twice. */
  predicate Distinct<T(==)>(s: seq<T>) {
    forall i, j :: 0 <= i < j < |s| ==> s[i] != s[j]
  }

  /** When the output names are distinct, looking an image up by its name (`images[names.index(name)]`)
      yields the reference value of that ROI and quantity for every spectrum. */
  lemma BatchLookup(x: seq<real>, stack: seq<seq<real>>, roilist: seq<string>, roidict: map<string, RoiEntry>,
                    xAtMinMax: bool, net: bool, p: nat, q: Quantity, k: nat)
    requires Batch(x, stack, roilist, roidict, xAtMinMax, net).Success?
    requires Distinct(Batch(x, stack, roilist, roidict, xAtMinMax, net).value.names)
    requires p < |roilist| && q in Quantities(xAtMinMax, net)
    requires k < |Batch(x, stack, roilist, roidict, xAtMinMax, net).value.names|
    requires Batch(x, stack, roilist, roidict, xAtMinMax, net).value.names[k] == ImageName(q, roilist[p])
    ensures var o := Batch(x, stack, roilist, roidict, xAtMinMax, net).value;
            forall s :: 0 <= s < |stack| ==> o.images[k][s] == Measure(q, x, stack[s], roidict[roilist[p]])
  {
    BatchImages(x, stack, roilist, roidict, xAtMinMax, net, p, q);
    var o := Batch(x, stack, roilist, roidict, xAtMinMax, net).value;
    var k' :| 0 <= k' < |o.names| && o.names[k'] == ImageName(q, roilist[p])
              && forall s :: 0 <= s < |stack| ==> o.images[k'][s] == Measure(q, x, stack[s], roidict[roilist[p]]);
    assert k' == k;
  }

  // ---------------------------------------------------------------------------
  // Distinct image names

  /** What follows "ROI " + roi in the name of each quantity's image. */
  function NameSuffix(q: Quantity): string {
    match q
    case Raw => ""
    case Net => " Net"
    case AtMin => " Channel at Min."
    case AtMax => " Channel at Max."
  }

  lemma NameForm(q: Quantity, roi: string)
    ensures ImageName(q, roi) == "ROI " + (roi + NameSuffix(q))
  {
    assert ("ROI " + roi) + NameSuffix(q) == "ROI " + (roi + NameSuffix(q));
  }

  lemma DropPrefix(pre: string, u: string, v: string)
    requires pre + u == pre + v
    ensures u == v
  {
    assert u == (pre + u)[|pre|..];
    assert v == (pre + v)[|pre|..];
  }

  /** Two splittings of one string, the second suffix at least as long as the first. */
  lemma SplitAt(r: string, s: string, r': string, s': string)
    requires r + s == r' + s' && |s| <= |s'|
    ensures r == r' + s'[..|s'| - |s|] && s == s'[|s'| - |s|..]
  {
    var d := |s'| - |s|;
    assert r == (r + s)[..|r|];
    assert (r' + s')[..|r|] == r' + s'[..d];
    assert s == (r + s)[|r|..];
    assert (r' + s')[|r|..] == s'[d..];
  }

  /** No name suffix except the empty one ends another, longer or equally long, suffix. */
  lemma SuffixNotTail(q: Quantity, q': Quantity)
    requires q != q' && q != Raw && |NameSuffix(q)| <= |NameSuffix(q')|
    ensures NameSuffix(q) != NameSuffix(q')[|NameSuffix(q')| - |NameSuffix(q)|..]
  {
    var s, t := NameSuffix(q), NameSuffix(q');
    var d := |t| - |s|;
    if q == Net {
      assert s[1] != t[d..][1];
    } else {
      assert s[13] != t[d..][13];
    }
  }

  /**
   * Two image names coincide exactly when they name the same quantity of the same ROI, or when
   * one is the raw image of a ROI whose name is the other ROI's name followed by that quantity's
   * suffix (such as "ROI a Net" for ROI "a Net" and the net image of ROI "a").
   */
  lemma ImageNameEqual(q: Quantity, r: string, q': Quantity, r': string)
    ensures ImageName(q, r) == ImageName(q', r') <==>
              (q == q' && r == r')
              || (q == Raw && q' != Raw && r == r' + NameSuffix(q'))
              || (q' == Raw && q != Raw && r' == r + NameSuffix(q))
  {
    NameForm(q, r);
    NameForm(q', r');
    var s, s' := NameSuffix(q), NameSuffix(q');
    if ImageName(q, r) == ImageName(q', r') {
      DropPrefix("ROI ", r + s, r' + s');
      if |s| <= |s'| {
        SplitAt(r, s, r', s');
        if q != q' && q != Raw {
          SuffixNotTail(q, q');
        }
      } else {
        SplitAt(r', s', r, s);
        if q != q' && q' != Raw {
          SuffixNotTail(q', q);
        }
      }
    }
  }

  /** The images of one ROI have pairwise different names. */
  lemma NamesOfOneRoiDiffer(q: Quantity, q': Quantity, roi: string)
    requires q != q'
    ensures ImageName(q, roi) != ImageName(q', roi)
  {
    ImageNameEqual(q, roi, q', roi);
  }

  /** No listed ROI name is another listed ROI name followed by " Net", " Channel at Min." or
      " Channel at Max.". */
  predicate NoSuffixClash(roilist: seq<string>) {
    forall p, p', q :: 0 <= p < |roilist| && 0 <= p' < |roilist| && q != Raw ==>
      roilist[p] != roilist[p'] + NameSuffix(q)
  }

  /** ROI names of one length, like "roi1", "roi2", "roi3", never clash. */
  lemma EqualLengthNoClash(roilist: seq<string>)
    requires forall p, p' :: 0 <= p < |roilist| && 0 <= p' < |roilist| ==> |roilist[p]| == |roilist[p']|
    ensures NoSuffixClash(roilist)
  {
    forall p, p', q | 0 <= p < |roilist| && 0 <= p' < |roilist| && q != Raw
      ensures roilist[p] != roilist[p'] + NameSuffix(q)
    {
      assert |NameSuffix(q)| > 0;
    }
  }

  lemma DistinctConcat<T>(a: seq<T>, b: seq<T>)
    requires Distinct(a) && Distinct(b)
    requires forall i, j :: 0 <= i < |a| && 0 <= j < |b| ==> a[i] != b[j]
    ensures Distinct(a + b)
  {
    forall i, j | 0 <= i < j < |a + b| ensures (a + b)[i] != (a + b)[j] {
      if j < |a| {
        assert (a + b)[i] == a[i] && (a + b)[j] == a[j];
      } else if i < |a| {
        assert (a + b)[i] == a[i] && (a + b)[j] == b[j - |a|];
      } else {
        assert (a + b)[i] == b[i - |a|] && (a + b)[j] == b[j - |a|];
      }
    }
  }

  lemma TailKeepsNames(roilist: seq<string>)
    requires roilist != [] && Distinct(roilist) && NoSuffixClash(roilist)
    ensures Distinct(roilist[1..]) && NoSuffixClash(roilist[1..])
  {
    var tl := roilist[1..];
    forall i, j | 0 <= i < j < |tl| ensures tl[i] != tl[j] {
      assert tl[i] == roilist[i + 1] && tl[j] == roilist[j + 1];
    }
    forall p, p', q | 0 <= p < |tl| && 0 <= p' < |tl| && q != Raw ensures tl[p] != tl[p'] + NameSuffix(q) {
      assert tl[p] == roilist[p + 1] && tl[p'] == roilist[p' + 1];
    }
  }

  lemma {:induction false} CollectDistinct(x: seq<real>, stack: seq<seq<real>>, roilist: seq<string>,
                                           roidict: map<string, RoiEntry>, qs: seq<Quantity>)
    requires ShapesAgree(x, stack) && AllDefined(roilist, roidict)
    requires Distinct(roilist) && NoSuffixClash(roilist) && Distinct(qs)
    ensures Distinct(Collect(x, stack, roilist, roidict, qs).names)
  {
    if roilist != [] {
      CollectUnfold(x, stack, roilist, roidict, qs);
      TailKeepsNames(roilist);
      var tl := roilist[1..];
      CollectDistinct(x, stack, tl, roidict, qs);
      var h := RoiOutput(x, stack, roilist[0], roidict[roilist[0]], qs);
      var t := Collect(x, stack, tl, roidict, qs);
      forall i, j | 0 <= i < j < |h.names| ensures h.names[i] != h.names[j] {
        NamesOfOneRoiDiffer(qs[i], qs[j], roilist[0]);
      }
      forall i, j | 0 <= i < |h.names| && 0 <= j < |t.names| ensures h.names[i] != t.names[j] {
        CollectNames(x, stack, tl, roidict, qs, t.names[j]);
        var p, q :| 0 <= p < |tl| && q in qs && t.names[j] == ImageName(q, tl[p]);
        assert tl[p] == roilist[p + 1];
        ImageNameEqual(qs[i], roilist[0], q, tl[p]);
      }
      DistinctConcat(h.names, t.names);
    }
  }

  /**
   * With distinct ROI names of which none is another followed by a quantity's suffix, every
   * output name occurs once, so `names.index(name)` finds the one image of that name.
   */
  lemma BatchNamesDistinct(x: seq<real>, stack: seq<seq<real>>, roilist: seq<string>, roidict: map<string, RoiEntry>,
                           xAtMinMax: bool, net: bool)
    requires Batch(x, stack, roilist, roidict, xAtMinMax, net).Success?
    requires Distinct(roilist) && NoSuffixClash(roilist)
    ensures Distinct(Batch(x, stack, roilist, roidict, xAtMinMax, net).value.names)
  {
    CollectDistinct(x, stack, roilist, roidict, Quantities(xAtMinMax, net));
  }

  /** The ROI list ["roi1", "roi2", "roi3"] gives distinct output names for any stack and flags. */
  lemma ThreeRoiNamesDistinct(x: seq<real>, stack: seq<seq<real>>, roidict: map<string, RoiEntry>,
                              xAtMinMax: bool, net: bool)
    requires Batch(x, stack, ["roi1", "roi2", "roi3"], roidict, xAtMinMax, net).Success?
    ensures Distinct(Batch(x, stack, ["roi1", "roi2", "roi3"], roidict, xAtMinMax, net).value.names)
  {
    var roilist := ["roi1", "roi2", "roi3"];
    assert roilist[0][3] != roilist[1][3] && roilist[0][3] != roilist[2][3] && roilist[1][3] != roilist[2][3];
    EqualLengthNoClash(roilist);
    BatchNamesDistinct(x, stack, roilist, roidict, xAtMinMax, net);
  }

  // ---------------------------------------------------------------------------
  // The reference loop of the test, which stores the expected counts into the configuration

  /** `config["ROI"]`: the ordered ROI names and the ROI dictionary. */
  class RoiConfiguration {
    var roilist: seq<string>
    var roidict: map<string, RoiEntry>

    constructor (roilist: seq<string>, roidict: map<string, RoiEntry>)
      ensures this.roilist == roilist && this.roidict == roidict
    {
      this.roilist := roilist;
      this.roidict := roidict;
    }

    /** Stores `rawcounts` and `netcounts` of one spectrum y into every entry of the ROI dictionary. */
    method StoreReferenceCounts(x: seq<real>, y: seq<real>)
      requires |x| == |y|
      modifies this
      ensures roilist == old(roilist)
      ensures roidict.Keys == old(roidict).Keys
      ensures forall roi :: roi in roidict ==>
                roidict[roi] == Stored(old(roidict)[roi], x, y)
    {
      var todo := roidict.Keys;
      while todo != {}
        invariant roilist == old(roilist)
        invariant todo <= roidict.Keys
        invariant roidict.Keys == old(roidict).Keys
        invariant forall roi :: roi in roidict && roi !in todo ==> roidict[roi] == Stored(old(roidict)[roi], x, y)
        invariant forall roi :: roi in todo ==> roidict[roi] == old(roidict)[roi]
        decreases todo
      {
        var roi :| roi in todo;
        roidict := roidict[roi := Stored(roidict[roi], x, y)];
        todo := todo - {roi};
      }
    }
  }

  /** The entry with its reference raw and net counts added. */
  function Stored(e: RoiEntry, x: seq<real>, y: seq<real>): (r: RoiEntry)
    requires |x| == |y|
    ensures r.from == e.from && r.to == e.to && r.roiType == e.roiType
    ensures r.rawcounts == Some(RawCounts(x, y, e.from, e.to))
    ensures r.netcounts == Some(NetCounts(x, y, e.from, e.to))
  {
    e.(rawcounts := Some(RawCounts(x, y, e.from, e.to)), netcounts := Some(NetCounts(x, y, e.from, e.to)))
  }

  /** What the test asserts: for a 1x1 stack, the engine's raw and net images hold the counts the
      reference loop stored, for every ROI of the configuration. */
  lemma StoredMatchesBatch(x: seq<real>, y: seq<real>, roilist: seq<string>, roidict: map<string, RoiEntry>,
                           xAtMinMax: bool, p: nat)
    requires |x| == |y| && AllDefined(roilist, roidict) && p < |roilist|
    ensures var o := Batch(x, [y], roilist, roidict, xAtMinMax, true).value;
            var e := Stored(roidict[roilist[p]], x, y);
            (exists k :: 0 <= k < |o.names| && o.names[k] == RawName(roilist[p]) && o.images[k] == [e.rawcounts.value])
            && (exists k :: 0 <= k < |o.names| && o.names[k] == NetName(roilist[p]) && o.images[k] == [e.netcounts.value])
  {
    var o := Batch(x, [y], roilist, roidict, xAtMinMax, true).value;
    var qs := Quantities(xAtMinMax, true);
    BatchImages(x, [y], roilist, roidict, xAtMinMax, true, p, Raw);
    var k :| 0 <= k < |o.names| && o.names[k] == ImageName(Raw, roilist[p])
             && forall s :: 0 <= s < 1 ==> o.images[k][s] == Measure(Raw, x, [y][s], roidict[roilist[p]]);
    assert |o.images[k]| == 1;
    assert o.images[k] == [o.images[k][0]];
    BatchImages(x, [y], roilist, roidict, xAtMinMax, true, p, Net);
    var k' :| 0 <= k' < |o.names| && o.names[k'] == ImageName(Net, roilist[p])
              && forall s :: 0 <= s < 1 ==> o.images[k'][s] == Measure(Net, x, [y][s], roidict[roilist[p]]);
    assert |o.images[k']| == 1;
    assert o.images[k'] == [o.images[k'][0]];
  }
}
