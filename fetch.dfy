/** Downloads and asset loads, as handles whose state the environment advances
    between polls (the WWW and AssetBundleRequest objects of the source), and the
    insert-if-absent URL caches built on them. */
module Fetch {
  import opened Assets

  /** A WWW: the download of one URL. `isDone` and `progress` are inputs from the
      transport; the core only reads them. */
  class Handle {
    const url: string
    var isDone: bool
    var progress: real

    constructor (url: string)
      ensures this.url == url && !isDone && progress == 0.0
    {
      this.url := url;
      isDone := false;
      progress := 0.0;
    }

    /** The transport reports progress; it never goes back and never undoes `isDone`. */
    method Advance(p: real, done: bool)
      requires progress <= p <= 1.0
      modifies this
      ensures progress == p && isDone == (old(isDone) || done)
    {
      progress := p;
      isDone := isDone || done;
    }

    /** WWW.assetBundle.LoadAsync(name, kind): starts an asynchronous load of one
        named asset of the downloaded bundle. */
    method LoadAsync(name: string, kind: AssetKind) returns (r: Request)
      requires isDone
      ensures fresh(r) && r.bundle == this && r.assetName == name && r.kind == kind
      ensures !r.isDone && r.asset == Pending
    {
      r := new Request(this, name, kind);
    }
  }

  /** An AssetBundleRequest: an asynchronous load of one asset out of a bundle. */
  class Request {
    const bundle: Handle
    const assetName: string
    const kind: AssetKind
    var isDone: bool
    var asset: Asset

    constructor (bundle: Handle, assetName: string, kind: AssetKind)
      ensures this.bundle == bundle && this.assetName == assetName && this.kind == kind
      ensures !isDone && asset == Pending
    {
      this.bundle := bundle;
      this.assetName := assetName;
      this.kind := kind;
      isDone := false;
      asset := Pending;
    }

    /** The engine completes the load with the asset it found. */
    method Finish(a: Asset)
      requires !isDone
      modifies this
      ensures isDone && asset == a
    {
      isDone := true;
      asset := a;
    }
  }

  /** `r` is a load of asset `name` of kind `kind` out of bundle `h`. */
  predicate LoadOf(r: Request, h: Handle, name: string, kind: AssetKind) {
    r.bundle == h && r.assetName == name && r.kind == kind
  }

  /** A request slot that held a started load still holds that same load. */
  predicate Kept(before: Request?, after: Request?) {
    before != null ==> after == before
  }

  /** A process-wide dictionary key -> WWW that creates a WWW for
      `baseUrl + key + suffix` the first time a key is asked for and hands out that
      same WWW on every later request. The source holds two: CharacterElement.wwws
      (keyed by bundle file name, empty suffix) and CharacterGenerator.characterBaseWWWs
      (keyed by character, suffix "_characterbase.assetbundle"). */
  class HandleCache {
    const baseUrl: string
    const suffix: string
    var wwws: map<string, Handle>

    ghost predicate Valid()
      reads this
    {
      forall k :: k in wwws ==> wwws[k].url == baseUrl + k + suffix
    }

    constructor (baseUrl: string, suffix: string)
      ensures Valid() && this.baseUrl == baseUrl && this.suffix == suffix && wwws == map[]
    {
      this.baseUrl := baseUrl;
      this.suffix := suffix;
      wwws := map[];
    }

    /** Get-or-create: at most one WWW per key, ever. */
    method GetOrCreate(key: string) returns (h: Handle)
      requires Valid()
      modifies this
      ensures Valid()
      ensures key in wwws && h == wwws[key]
      ensures Extends(old(wwws), wwws, {key})
      ensures key !in old(wwws) ==> fresh(h) && !h.isDone && h.progress == 0.0
    {
      if key !in wwws {
        var fetch := new Handle(baseUrl + key + suffix);
        wwws := wwws[key := fetch];
      }
      h := wwws[key];
    }
  }

  /** A cache's dictionary grew from `before` to `after`: it kept every WWW it had
      and gained WWWs only for keys in `keys`. */
  ghost predicate Extends(before: map<string, Handle>, after: map<string, Handle>, keys: set<string>) {
    && (forall k :: k in before ==> k in after && after[k] == before[k])
    && (forall k :: k in after && k !in before ==> k in keys)
  }

  /** characterBaseRequests: a process-wide dictionary key -> AssetBundleRequest whose
      load is started the first time a key is asked for. */
  class RequestCache {
    var requests: map<string, Request>

    constructor ()
      ensures requests == map[]
    {
      requests := map[];
    }

    /** Start-once: the load of `name` out of the downloaded bundle `h` is started
        only when `key` has no request yet; an existing request is never replaced. */
    method GetOrLoad(key: string, h: Handle, name: string, kind: AssetKind) returns (r: Request)
      requires h.isDone
      modifies this
      ensures key in requests && r == requests[key]
      ensures key in old(requests) ==> requests == old(requests)
      ensures key !in old(requests) ==>
        fresh(r) && requests == old(requests)[key := r] && LoadOf(r, h, name, kind) &&
        !r.isDone && r.asset == Pending
    {
      if key !in requests {
        var load := h.LoadAsync(name, kind);
        requests := requests[key := load];
      }
      r := requests[key];
    }
  }
}
