/** The records the dashboard passes around. Timestamps are integer
    milliseconds; the source's `type` field is called `kind` here because
    `type` is a Dafny keyword. */
module Incidents {
  import opened Options

  /** A camera as the incident API returns it. */
  datatype Camera = Camera(id: int, name: string, location: string, status: string)

  /** A full incident record as the dashboard and the incident list hold it. */
  datatype Incident = Incident(
    id: int,
    cameraId: int,
    kind: string,
    tsStart: int,
    tsEnd: int,
    thumbnailUrl: string,
    resolved: bool,
    severity: string,
    description: Option<string>,
    camera: Camera)

  /** The camera part the timeline keeps. */
  datatype CameraRef = CameraRef(id: int, name: string, location: string)

  /** The incident shape the timeline receives. */
  datatype TimelineIncident = TimelineIncident(
    id: int,
    kind: string,
    tsStart: int,
    tsEnd: int,
    severity: string,
    camera: CameraRef)

  /** No two records share an id (the database's primary key). */
  predicate UniqueIds(s: seq<Incident>) {
    forall i, j :: 0 <= i < j < |s| ==> s[i].id != s[j].id
  }
}
