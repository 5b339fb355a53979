/** `get_image_filter_list`: the catalogue of the eleven filters, indexed by filter id. */
module Registry {
  import opened Wrappers
  import opened ImageFilters

  /** The constructor arguments of the registered filters, in registration order. */
  function Catalogue(): (c: seq<FilterEntry>)
    ensures |c| == 11
    ensures forall i :: 0 <= i < |c| ==> c[i].filterId == i
  {
    [
      FilterEntry("Simple Greyscale", 0, SimpleGreyscaleFn, NoneType, "", None, None),
      FilterEntry("Weighted Greyscale", 1, WeightedGreyscaleFn, BgrFloatValue, "Weights",
                  Some(Vector([Float(0.07), Float(0.71), Float(0.21)])), Some((Float(0.0), Float(1.0)))),
      FilterEntry("Greyscale from channel", 2, GreyscaleFromChannelFn, IntValue, "Channel",
                  Some(Scalar(Int(0))), Some((Int(0), Int(2)))),
      FilterEntry("OR Filter", 3, FilterOrFn, BgrValue, "Filter Color",
                  Some(Vector([Int(255), Int(0), Int(255)])), Some((Int(0), Int(255)))),
      FilterEntry("Negate", 4, NegateFn, NoneType, "", None, None),
      FilterEntry("Binarize", 5, BinarizeFn, IntValue, "Threshold",
                  Some(Scalar(Int(127))), Some((Int(0), Int(255)))),
      FilterEntry("Blur", 6, BlurFn, IntTuple2, "Width / Height",
                  Some(Vector([Int(15), Int(15)])), Some((Int(1), Int(200)))),
      FilterEntry("Canny", 7, CannyFn, IntTuple2, "Lower Threshold / Upper Threshold",
                  Some(Vector([Int(50), Int(150)])), Some((Int(1), Int(300)))),
      FilterEntry("Embossed Edges", 8, EmbossedEdgesFn, NoneType, "", None, None),
      FilterEntry("Gaussian Blur", 9, GaussianBlurFn, IntTuple2, "Width / Height",
                  Some(Vector([Int(15), Int(15)])), Some((Int(1), Int(200)))),
      FilterEntry("Pencil Sketch", 10, PencilSketchFn, NoneType, "", None, None)
    ]
  }

  /**
   * Every registered entry is well formed: its parameter shape is its
   * function's, a parameterless kind holds no value, and its default value
   * lies within its slider bounds, so a freshly built filter applies without raising.
   */
  lemma CatalogueEntriesValid(i: nat)
    requires i < |Catalogue()|
    ensures EntryValid(Catalogue()[i])
    ensures Catalogue()[i].parameterType == NoneType <==> Catalogue()[i].parameterValue.None?
  {
    var e := Catalogue()[i];
    if e.parameterType != NoneType {
      var slots := if e.parameterValue.value.Vector? then e.parameterValue.value.slots else [];
      forall k | 0 <= k < |slots|
        ensures SlotFits(e.parameterType, slots[k], e.minMax)
      {
      }
    }
  }

  /**
   * The registry: one fresh filter per catalogue entry, constructed in
   * catalogue order, so that the filter at position i has id i and is well formed.
   */
  method GetImageFilterList() returns (filters: seq<ImageFilter>)
    ensures |filters| == |Catalogue()|
    ensures forall i :: 0 <= i < |filters| ==> fresh(filters[i]) && filters[i].Entry() == Catalogue()[i]
    ensures forall i :: 0 <= i < |filters| ==> filters[i].filterId == i && filters[i].Valid()
  {
    var c := Catalogue();
    filters := [];
    for i := 0 to |c|
      invariant |filters| == i
      invariant forall j :: 0 <= j < i ==> fresh(filters[j]) && filters[j].Entry() == c[j]
      invariant forall j :: 0 <= j < i ==> filters[j].filterId == j && filters[j].Valid()
    {
      CatalogueEntriesValid(i);
      var f := new ImageFilter(c[i]);
      filters := filters + [f];
    }
  }
}
