/** The messages that announce changes of the segments of a layout. */
module LayoutMessages {
  import opened PartSelections
  import opened Geometry

  /** The first two wires hold the temporary and the colliding segments. */
  const TEMPORARY_WIRE := 0
  const COLLIDING_WIRE := 1
  const FIRST_INSERTED_WIRE := 2

  datatype Segment = Segment(wire: nat, index: nat)

  datatype SegmentPart = SegmentPart(segment: Segment, part: Part)

  datatype PointType = NewUnknown | InputPoint | OutputPoint | CornerPoint | CrossPoint | ShadowPoint

  datatype SegmentInfo = SegmentInfo(line: OrderedLine, p0Type: PointType, p1Type: PointType)

  datatype Message =
    | SegmentCreated(created: Segment, size: nat)
    | SegmentIdUpdated(newSegment: Segment, oldSegment: Segment)
    | SegmentPartMoved(destination: SegmentPart, source: SegmentPart, createDestination: bool, deleteSource: bool)
    | SegmentPartDeleted(segmentPart: SegmentPart, deleteSegment: bool)
    | SegmentInserted(inserted: Segment, info: SegmentInfo)
    | InsertedSegmentIdUpdated(newInserted: Segment, oldInserted: Segment, keptInfo: SegmentInfo)
    | InsertedEndPointsUpdated(changed: Segment, newInfo: SegmentInfo, oldInfo: SegmentInfo)
    | SegmentUninserted(uninserted: Segment, lastInfo: SegmentInfo)
}
