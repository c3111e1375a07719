/**
 * The two record kinds the database links: near-Earth objects and their
 * close approaches. Only the attributes that the database and the filters
 * read are modelled. Attributes fixed at load time are `const`; the two
 * link attributes, which the database sets while it is constructed, are `var`.
 */
module Records {
  import opened Wrappers

  /** A calendar date; dates are ordered chronologically. */
  datatype Date = Date(year: int, month: int, day: int)

  /** `x` is on or before `y`: lexicographic on (year, month, day). */
  predicate DateLe(x: Date, y: Date) {
    x.year < y.year
    || (x.year == y.year && (x.month < y.month || (x.month == y.month && x.day <= y.day)))
  }

  /** A UTC date and time; the time of day is kept as minutes after midnight. */
  datatype Timestamp = Timestamp(date: Date, minuteOfDay: nat)

  /** A floating-point quantity: a finite value or the not-a-number sentinel of a missing diameter. */
  datatype Float = Finite(x: real) | NaN

  /** A near-Earth object. */
  class NearEarthObject {
    /** The primary designation, the key that close approaches refer to. */
    const designation: string
    /** The name; `None` when the object is unnamed. */
    const name: Option<string>
    /** The diameter in kilometres; `NaN` when unknown. */
    const diameter: Float
    /** Whether the object is potentially hazardous. */
    const hazardous: bool
    /** This object's close approaches, filled in when the database links the records. */
    var approaches: seq<CloseApproach>

    constructor (designation: string, name: Option<string>, diameter: Float, hazardous: bool)
      ensures this.designation == designation && this.name == name
      ensures this.diameter == diameter && this.hazardous == hazardous
      ensures approaches == []
    {
      this.designation := designation;
      this.name := name;
      this.diameter := diameter;
      this.hazardous := hazardous;
      approaches := [];
    }
  }

  /** One close approach of a near-Earth object to Earth. */
  class CloseApproach {
    /** The designation of the object this approach belongs to, before linking. */
    const designationKey: string
    /** The time of closest approach. */
    const time: Timestamp
    /** The nominal approach distance, in astronomical units. */
    const distance: real
    /** The relative approach velocity, in km/s. */
    const velocity: real
    /** The object this approach belongs to; `null` until the database links it. */
    var neo: NearEarthObject?

    constructor (designationKey: string, time: Timestamp, distance: real, velocity: real)
      ensures this.designationKey == designationKey && this.time == time
      ensures this.distance == distance && this.velocity == velocity
      ensures neo == null
    {
      this.designationKey := designationKey;
      this.time := time;
      this.distance := distance;
      this.velocity := velocity;
      neo := null;
    }
  }
}
