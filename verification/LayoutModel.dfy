/** Layout blocks as every page stage sees them. Coordinates are exact reals. */
module LayoutModel {
  datatype BBox = BBox(x0: real, y0: real, x1: real, y1: real)

  datatype BlockType = Unknown | Title | Text | List | Table | Figure | Header | Footer

  /** `lines` are the indices of the text lines the block owns. */
  datatype LayoutBlock = LayoutBlock(
    id: string,
    kind: BlockType,
    sourceLabel: string,
    relatedBlockId: string,
    readingOrderHint: int,
    bbox: BBox,
    lines: seq<int>)

  function Max(a: real, b: real): real { if a < b then b else a }

  function Min(a: real, b: real): real { if b < a then b else a }

  function Abs(a: real): real { if a < 0.0 then -a else a }

  /** The box around two boxes. */
  function Expand(a: BBox, b: BBox): BBox { BBox(Min(a.x0, b.x0), Min(a.y0, b.y0), Max(a.x1, b.x1), Max(a.y1, b.y1)) }
}
