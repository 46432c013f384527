/**
 * The world the bundler acts on: the file system as a map from path to contents and
 * modification time, the network as a map from URL to response, the modification
 * markers the bundler keeps per entry, and a log of the reads and writes it performs.
 */
module FileSystem {
  import opened Wrappers

  /** A file's text and its modification time (an opaque, comparable token). */
  datatype File = File(content: string, mtime: int)

  type Disk = map<string, File>

  /** An HTTP response; a URL absent from the network map does not answer at all. */
  datatype Response = Response(status: int, body: string)

  type Web = map<string, Response>

  /** The position of an entry: its bundle's name and its index in that bundle. Each
      position has its own markers, even when two bundles list the same file. */
  datatype Slot = Slot(bundle: string, index: nat)

  /** Modification markers by entry position; an absent slot has no marker. */
  type Markers = map<Slot, int>

  /** Reads and writes of content, in the order they happen. */
  datatype Io = ReadFile(path: string) | Download(url: string) | WriteFile(path: string)

  /**
   * Everything a build can change: the disk, the marker recorded at each entry's last
   * successful build (`mtime`), the marker captured at the last check (`ttime`), and
   * the log of content reads and writes.
   */
  datatype World = World(disk: Disk, mtime: Markers, ttime: Markers, log: seq<Io>)

  /** `m1` and `m2` agree at `k`: both lack it or both map it to the same value. */
  ghost predicate Same<K, V>(m1: map<K, V>, m2: map<K, V>, k: K)
  {
    (k in m1 <==> k in m2) && (k in m1 ==> m1[k] == m2[k])
  }

  lemma SameEverywhere<K, V>(m1: map<K, V>, m2: map<K, V>)
    requires forall k :: Same(m1, m2, k)
    ensures m1 == m2
  {
    forall k | k in m1 ensures k in m2 && m1[k] == m2[k] { assert Same(m1, m2, k); }
    forall k | k in m2 ensures k in m1 { assert Same(m1, m2, k); }
  }

  /**
   * The remote read as written (index.js:45-55): a response whose status is not 200
   * completes without an error, so the entry's content is undefined, which the later
   * join renders as the empty string.
   */
  function FetchAsWritten(web: Web, url: string): (r: Result<string>)
    ensures r.Err? <==> url !in web
    ensures r.Err? ==> r.error == FetchFailed(url)
    ensures r.Ok? && web[url].status == 200 ==> r.value == web[url].body
    ensures r.Ok? && web[url].status != 200 ==> r.value == ""
  {
    if url !in web then Err(FetchFailed(url))
    else if web[url].status == 200 then Ok(web[url].body)
    else Ok("")
  }

  /** A 404 answer is read as an empty remote file. */
  lemma FetchAsWrittenAcceptsNotFound()
    ensures FetchAsWritten(map["http://cdn.example/lib.js" := Response(404, "Not Found")], "http://cdn.example/lib.js")
         == Ok("")
  {
  }

  /** The remote read as intended: only a 200 answer yields content, and that content is its body. */
  function Fetch(web: Web, url: string): (r: Result<string>)
    ensures r.Ok? <==> url in web && web[url].status == 200
    ensures r.Ok? ==> r.value == web[url].body
    ensures r.Err? ==> r.error == FetchFailed(url)
  {
    if url in web && web[url].status == 200 then Ok(web[url].body) else Err(FetchFailed(url))
  }
}
