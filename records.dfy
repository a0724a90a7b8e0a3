/** The records the outline agents pass between each other. */
module Records {
  import opened Wrappers

  /** A bounding box `(x0, y0, x1, y1)` in page coordinates. */
  datatype Box = Box(x0: real, y0: real, x1: real, y1: real)

  /** One text fragment as the title classifier reads it: the keys of a
      structure record. `bbox` is `None` when the key is absent and `kind` is
      the `type` key, `""` when absent. Two fragments are the same record
      exactly when they agree on all of these modelled keys; keys outside
      this list are not represented. */
  datatype Fragment = Fragment(
    text: string,
    fontSize: real,
    font: string,
    bold: bool,
    italic: bool,
    bbox: Option<Box>,
    page: int,
    ocr: bool,
    isHeading: bool,
    kind: string)

  /** `h.get("bbox", [0, 0, 0, 0])[0]` */
  function X0(f: Fragment): real {
    if f.bbox.Some? then f.bbox.value.x0 else 0.0
  }

  /** `h.get("bbox", [0, 0, 0, 0])[1]` */
  function Y0(f: Fragment): real {
    if f.bbox.Some? then f.bbox.value.y0 else 0.0
  }

  /** `bbox[2] - bbox[0]`, or 0 without a box. */
  function Width(f: Fragment): real {
    if f.bbox.Some? then f.bbox.value.x1 - f.bbox.value.x0 else 0.0
  }

  /** A heading level. The classifier spells it `"h1"`.. internally and
      upper-cases it on output; the other agents use `"H1"`.. throughout. */
  datatype Level = H1 | H2 | H3

  function LevelName(l: Level): string {
    match l
    case H1 => "H1"
    case H2 => "H2"
    case H3 => "H3"
  }

  /** One outline entry `{"level", "text", "page"}`. */
  datatype Entry = Entry(level: Level, text: string, page: int)

  /** `{"title": ..., "outline": [...]}` */
  datatype Document = Document(title: string, outline: seq<Entry>)

  /** `{"title": "", "outline": []}` */
  const EmptyDocument: Document := Document("", [])

  /** The truth-valued result Python stores for `is_isolated`: `None`, the
      number `0` or a boolean. */
  datatype PyFlag = PyNone | PyZero | PyBool(b: bool) {
    predicate Truthy() { PyBool? && b }
  }

  /** One line record of the agent pipeline: the structure keys plus the keys
      the visual and text agents add (`None` while absent). `bbox` is the list
      as given, so a short list is representable. */
  datatype Line = Line(
    text: string,
    fontSize: real,
    bold: bool,
    italic: bool,
    bbox: seq<real>,
    page: int,
    ocr: bool,
    fontRatio: Option<real>,
    isIsolated: Option<PyFlag>,
    isNumbered: Option<bool>,
    isUppercase: Option<bool>,
    isShort: Option<bool>,
    language: Option<string>)

  /** `bbox[1]` (and `bbox[0]`) exist. */
  predicate HasTop(l: Line) { |l.bbox| >= 2 }

  /** Every line has a top edge. */
  predicate AllHaveTop(lines: seq<Line>) {
    forall i :: 0 <= i < |lines| ==> HasTop(lines[i])
  }

  /** Some line is on page `p`. */
  predicate HasPage(all: seq<Line>, p: int) {
    exists i :: 0 <= i < |all| && all[i].page == p
  }

  /** One entry of the hierarchy agent's outline, `{"level", "text", "page", "bbox"}`. */
  datatype RankedEntry = RankedEntry(level: Level, text: string, page: int, bbox: seq<real>)

  /** The hierarchy agent's result. */
  datatype RankedDocument = RankedDocument(title: string, outline: seq<RankedEntry>)
}
