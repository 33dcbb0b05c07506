/** The browser services the core calls out to, reduced to what it records. */
module Host {

  /** `window.open(url, "_blank")` calls, kept as a log of the urls in call order. */
  class Browser {
    var openedUrls: seq<string>

    constructor ()
      ensures openedUrls == []
    {
      openedUrls := [];
    }

    method Open(url: string)
      modifies this
      ensures openedUrls == old(openedUrls) + [url]
    {
      openedUrls := openedUrls + [url];
    }
  }
}
