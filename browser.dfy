/** The browser state the pages read and write: the current location and
    `localStorage`. */
module Browser {
  import opened Query

  class Window {
    /** `window.location`, split into path, query and fragment. */
    var url: Target
    /** `localStorage`. */
    var storage: map<string, string>

    constructor (url: Target, storage: map<string, string>)
      ensures this.url == url && this.storage == storage
    {
      this.url := url;
      this.storage := storage;
    }
  }
}
