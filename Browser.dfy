/** The browser state both pages share. */
module Browser {
  import opened Wrappers

  /** The localStorage entry "bike-quantities", as the pages read it back:
      None when the entry is absent or its JSON does not parse to an object
      of integers, otherwise the selection map it holds. */
  class LocalStorage {
    var bikeQuantities: Option<map<string, int>>

    constructor (stored: Option<map<string, int>>)
      ensures bikeQuantities == stored
    {
      bikeQuantities := stored;
    }
  }
}
