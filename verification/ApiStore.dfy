/**
 The Kubernetes API server, seen as the history of one object.

 A history lists every version the object ever had, oldest first; `None` is a version at
 which the object did not exist. The last entry is the stored object. A cached `Get` may
 return any entry. A write is optimistic: `Update` carries the version it was computed from
 and commits only if that version is still the last one; `Create` commits only if the object
 does not exist.
 */
module ApiStore {
  import opened Common

  type History<T> = h: seq<Option<T>> | |h| > 0 witness [None]

  function Stored<T>(h: History<T>): Option<T> {
    h[|h| - 1]
  }

  predicate UpdateCommits<T>(h: History<T>, at: nat) {
    at == |h| - 1 && Stored(h).Some?
  }

  predicate CreateCommits<T>(h: History<T>) {
    Stored(h).None?
  }
}
