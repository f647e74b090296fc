/** The two reserved location identifiers. Their module (user-locations) is not part of this
    model, so their values are left open: every property proved here holds whatever they are. */
module Locations {
  /** `locationIdGlobal`: observations at this location apply everywhere. */
  const LocationIdGlobal: string
  /** `locationIdWildcard`: used by sources that cannot tell where the user is. */
  const LocationIdWildcard: string
}
