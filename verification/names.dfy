/** The task ids the scheduling tasks give their submissions. A profile such
    as `arm32/beaglebone` appears in ids in its flat form `arm32-beaglebone`. */
module Names {
  import opened Strings

  /** `profile.replace("/", "-")`. */
  function Flat(profile: string): string {
    ReplaceChar(profile, '/', '-')
  }

  function HelenOSBuildId(flat: string): string {
    "helenos-build-" + flat
  }

  function FetchId(harbour: string): string {
    "coastline-fetch-" + harbour
  }

  function PrepareId(flat: string): string {
    "coastline-prepare-for-" + flat
  }

  function HarbourBuildId(harbour: string, flat: string): string {
    "coastline-build-" + harbour + "-for-" + flat
  }
}
