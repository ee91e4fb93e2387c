/** The records the script reads from the feed and the records it works on
    once vaccine names are checked and mapped. */
module Frames {
  import opened Vaccines

  /** `pd.to_datetime(..., unit="ms")`: milliseconds since the Unix epoch,
      time of day included (nothing truncates it). */
  type Timestamp = int

  /** One feature's attributes as the feed returns them. */
  datatype RawRecord = RawRecord(date: Timestamp, vaccineName: string, doseNumber: string, vaccinated: int)

  /** A record whose vaccine name passed the vocabulary check. */
  datatype Record = Record(date: Timestamp, vaccine: Vaccine, doseNumber: string, vaccinated: int)

  /** The constant columns: the location goes on both output tables, the
      source URL on the national one only. */
  const Location: string := "Lithuania"
  const SourceUrl: string := "https://ls-osp-sdg.maps.arcgis.com/apps/opsdashboard/index.html#/b7063ad3f8c149d394be7f043dfce460"
}
