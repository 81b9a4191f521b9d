// Organizers: the rules that turn a frame into workshifts
// (timeboard/core.py: `Organizer.__init__`; timeboard/utils.py:
// `is_iterable`, `to_iterable`).

module Organizers {
  import opened Errors
  import opened Frames
  import opened Patterns

  /** How a span is partitioned: by a Marker, or at explicit marks
      (already resolved to base-unit positions). */
  datatype Partitioning = ByMarker(marker: Marker) | AtMarks(marks: seq<int>)

  /** An element of a structure: a nested organizer, an iterable pattern of
      labels (a list or a RememberingPattern), or a scalar label. */
  datatype Layout<L> =
    | Nested(org: Organizer<L>)
    | Pattern(labels: seq<L>)
    | Remembering(rp: RememberingPattern<L>)
    | Label(value: L)

  /** A structure is a list of layouts, or a RememberingPattern whose labels
      are drawn one per span. */
  datatype Structure<L> = Layouts(items: seq<Layout<L>>) | RememberingLabels(rp: RememberingPattern<L>)

  datatype Organizer<L> = Organizer(partitioning: Partitioning, structure: Structure<L>)

  // ----- constructing an organizer -----

  /** The `marker` argument: a Marker, or a frequency string turned into
      `Marker(each)` with the date library's default mark computation. */
  datatype MarkerArg = GivenMarker(marker: Marker) | FreqOnly(each: string, defaultMarkup: Span -> Markup)

  /** The `marks` argument: an iterable of marks, or a single mark. */
  datatype MarksArg = MarkList(marks: seq<int>) | SingleMark(mark: int)

  /** The `structure` argument: an iterable one, or something that is not
      iterable (a scalar or a string). */
  datatype StructureArg<L> = Iterable(structure: Structure<L>) | NotIterable

  function AsMarker(m: MarkerArg): (r: Marker)
    ensures m.FreqOnly? ==> r.each == m.each
  {
    match m
    case GivenMarker(marker) => marker
    case FreqOnly(each, markup) => Marker(each, markup)
  }

  /** `to_iterable`: a single mark becomes a one-element list. */
  function MarksList(m: MarksArg): (r: seq<int>)
    ensures m.SingleMark? ==> r == [m.mark]
    ensures m.MarkList? ==> r == m.marks
  {
    match m
    case MarkList(marks) => marks
    case SingleMark(mark) => [mark]
  }

  /** `Organizer.__init__`: exactly one of marker and marks, and an iterable structure. */
  function MakeOrganizer<L>(marker: Option<MarkerArg>, marks: Option<MarksArg>,
                            structure: StructureArg<L>): (r: Result<Organizer<L>>)
    ensures (r.Err? && r.error == ValueError) <==> (marker.None? == marks.None?)
    ensures (r.Err? && r.error == TypeError) <==> (marker.None? != marks.None? && structure.NotIterable?)
    ensures r.Ok? ==> r.value.structure == structure.structure
    ensures r.Ok? && marker.Some? ==> r.value.partitioning == ByMarker(AsMarker(marker.value))
    ensures r.Ok? && marks.Some? ==> r.value.partitioning == AtMarks(MarksList(marks.value))
  {
    if marker.None? == marks.None? then Err(ValueError)
    else if structure.NotIterable? then Err(TypeError)
    else if marker.Some? then Ok(Organizer(ByMarker(AsMarker(marker.value)), structure.structure))
    else Ok(Organizer(AtMarks(MarksList(marks.value)), structure.structure))
  }

  // ----- the RememberingPatterns an organizer may advance -----

  function OrganizerPatterns<L>(org: Organizer<L>): set<RememberingPattern<L>>
    decreases org, 2
  {
    match org.structure
    case RememberingLabels(rp) => {rp}
    case Layouts(items) => ItemsPatterns(items)
  }

  function ItemsPatterns<L>(items: seq<Layout<L>>): set<RememberingPattern<L>>
    decreases items, 1
  {
    if items == [] then {} else ItemsPatterns(items[..|items| - 1]) + LayoutPatterns(items[|items| - 1])
  }

  function LayoutPatterns<L>(layout: Layout<L>): set<RememberingPattern<L>>
    decreases layout, 0
  {
    match layout
    case Nested(o) => OrganizerPatterns(o)
    case Remembering(rp) => {rp}
    case Pattern(_) => {}
    case Label(_) => {}
  }

  /** The patterns of each item are among those of the whole list. */
  lemma {:induction false} ItemPatternsIncluded<L>(items: seq<Layout<L>>, k: nat)
    requires k < |items|
    ensures LayoutPatterns(items[k]) <= ItemsPatterns(items)
  {
    if k < |items| - 1 {
      ItemPatternsIncluded(items[..|items| - 1], k);
    }
  }
}
