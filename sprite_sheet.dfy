/**
 * The sprite-sheet handle cache `SpriteSheetHandles`: a map from a logical
 * name to the handle of a sprite sheet, filled by loading an image file and
 * its `.ron` descriptor.
 *
 * The file system enters as the set of paths that are files (`is_file`);
 * the asset loader as the `AssetLoader` class below, which records every
 * request and answers each with a new handle; the asset storage's
 * "finished loading" answer as the set of resolved handles.
 */
module SpriteSheets {
  import opened Wrappers
  import opened PathText

  /** An asset handle, identified by the loader request that produced it. */
  datatype Handle = Handle(id: nat)

  datatype ImageFormat = Png | Jpg | Bmp | Tga

  /** One request issued to the asset loader: first the image as a texture,
      then the descriptor as a sprite sheet over that texture. */
  datatype Request =
    | TextureRequest(path: string, format: ImageFormat)
    | SheetRequest(path: string, texture: Handle)

  /** The ways `load` and `get_or_load` abort. */
  datatype LoadError =
    | ImageNotFound(path: string)
    | PatternMismatch(path: string)
    | DescriptorNotFound(ronPath: string)
    | UnsupportedFormat(ext: string)
    | MissingAfterLoad(key: string)

  /** What a successful `load` derives from the path before it loads. */
  datatype LoadPlan = LoadPlan(name: string, ronPath: string, format: ImageFormat)

  /** The key `get` looks up: the last '/'-piece, cut at its first '.'. */
  function LookupKey(name: string): (k: string)
    ensures forall j | 0 <= j < |k| :: k[j] != '/' && k[j] != '.'
  {
    BeforeFirst(AfterLast(name, '/'), '.')
  }

  /** The path ends in "." + `ext` (in any letter case), preceded by at
      least one character other than a line break. */
  predicate EndsWithExtension(path: string, ext: string)
  {
    && |path| >= |ext| + 2
    && Lower(path[|path| - |ext|..]) == ext
    && path[|path| - |ext| - 1] == '.'
    && path[|path| - |ext| - 2] != '\n'
  }

  /** The case-insensitive pattern `.+\.(png|jpe?g)\z` finds a match. */
  predicate MatchesImagePattern(path: string)
    ensures MatchesImagePattern(path) ==> |path| >= 5 && LowerChar(path[|path| - 1]) == 'g'
  {
    EndsWithExtension(path, "png") || EndsWithExtension(path, "jpg") || EndsWithExtension(path, "jpeg")
  }

  /** The texture format chosen from the lower-cased extension. */
  function ImageFormatOf(ext: string): (r: Option<ImageFormat>)
    ensures r == Some(Png) <==> Lower(ext) == "png"
    ensures r == Some(Jpg) <==> Lower(ext) == "jpg" || Lower(ext) == "jpeg"
    ensures r == Some(Bmp) <==> Lower(ext) == "bmp"
    ensures r == Some(Tga) <==> Lower(ext) == "tga"
  {
    var e := Lower(ext);
    if e == "png" then Some(Png)
    else if e == "jpg" || e == "jpeg" then Some(Jpg)
    else if e == "bmp" then Some(Bmp)
    else if e == "tga" then Some(Tga)
    else None
  }

  /**
   * The checks and derivations `load` performs before it issues any
   * request, in the order it performs them. A path with no extension
   * fails the same way as one that does not match the pattern; the
   * file-name check that follows can then no longer fail, because a path
   * with an extension has a file name.
   */
  function PrepareLoad(path: string, files: set<string>): (r: Result<LoadPlan, LoadError>)
    ensures path !in files ==> r == Failure(ImageNotFound(path))
    ensures path in files && !MatchesImagePattern(path) ==> r == Failure(PatternMismatch(path))
    ensures r.Success? ==> path in files && MatchesImagePattern(path) && r.value.ronPath in files
    ensures r.Failure? && r.error.DescriptorNotFound? ==> r.error.ronPath !in files
  {
    if path !in files then Failure(ImageNotFound(path))
    else if !MatchesImagePattern(path) then Failure(PatternMismatch(path))
    else match FileName(path)
      case None => Failure(PatternMismatch(path))
      case Some(file) =>
        match Extension(file)
        case None => Failure(PatternMismatch(path))
        case Some(ext) =>
          var dotExt := "." + ext;
          var name := ReplaceAll(file, dotExt, "");
          var ronPath := ReplaceAll(path, dotExt, ".ron");
          if ronPath !in files then Failure(DescriptorNotFound(ronPath))
          else match ImageFormatOf(ext)
            case None => Failure(UnsupportedFormat(ext))
            case Some(format) => Success(LoadPlan(name, ronPath, format))
  }

  /** Every handle stored in `m` has resolved. */
  predicate AllResolved(m: map<string, Handle>, resolved: set<Handle>)
  {
    forall h | h in m.Values :: h in resolved
  }

  /** The host's asset loader: it records each request in order and answers
      it with a handle that no earlier request received. */
  class AssetLoader {
    var requests: seq<Request>

    constructor ()
      ensures requests == []
    {
      requests := [];
    }

    method Load(request: Request) returns (h: Handle)
      modifies this
      ensures requests == old(requests) + [request]
      ensures h == Handle(|old(requests)|)
    {
      h := Handle(|requests|);
      requests := requests + [request];
    }
  }

  class SpriteSheetHandles {
    var handles: map<string, Handle>

    /** `Default`: the cache starts empty. */
    constructor ()
      ensures handles == map[]
    {
      handles := map[];
    }

    /** Registers `handle` under `name`, replacing any earlier entry; all
        other entries stay as they were. */
    method Insert(name: string, handle: Handle)
      modifies this
      ensures handles == old(handles)[name := handle]
      ensures forall q :: Get(q) == if LookupKey(q) == name then Some(handle) else old(Get(q))
    {
      handles := handles[name := handle];
    }

    /** The handle stored under the lookup key of `name`, if any. */
    function Get(name: string): (r: Option<Handle>)
      reads this
      ensures r.Some? <==> LookupKey(name) in handles
      ensures r.Some? ==> r.value == handles[LookupKey(name)]
    {
      var key := LookupKey(name);
      if key in handles then Some(handles[key]) else None
    }

    /**
     * Loads the sprite sheet whose image is at `path`: on any failed check
     * nothing is requested and the cache is unchanged; otherwise the image
     * and then its descriptor are requested and the descriptor's handle is
     * stored under the derived name.
     */
    method Load(path: string, files: set<string>, loader: AssetLoader) returns (r: Outcome<LoadError>)
      modifies this, loader
      ensures PrepareLoad(path, files).Failure? ==>
        && r == Fail(PrepareLoad(path, files).error)
        && handles == old(handles)
        && loader.requests == old(loader.requests)
      ensures PrepareLoad(path, files).Success? ==>
        var plan := PrepareLoad(path, files).value;
        var n := |old(loader.requests)|;
        && r == Pass
        && loader.requests == old(loader.requests) + [TextureRequest(path, plan.format), SheetRequest(plan.ronPath, Handle(n))]
        && handles == old(handles)[plan.name := Handle(n + 1)]
    {
      match PrepareLoad(path, files)
      case Failure(e) =>
        r := Fail(e);
      case Success(plan) =>
        Fetch(path, plan, loader);
        r := Pass;
    }

    /** The second half of `load`, once every check has passed: requests
        the image and then its descriptor, and stores the descriptor's
        handle under the plan's name. */
    method Fetch(path: string, plan: LoadPlan, loader: AssetLoader)
      modifies this, loader
      ensures var n := |old(loader.requests)|;
        && loader.requests == old(loader.requests) + [TextureRequest(path, plan.format), SheetRequest(plan.ronPath, Handle(n))]
        && handles == old(handles)[plan.name := Handle(n + 1)]
    {
      var texture := loader.Load(TextureRequest(path, plan.format));
      var sheet := loader.Load(SheetRequest(plan.ronPath, texture));
      Insert(plan.name, sheet);
    }

    /**
     * Returns the cached handle for `path` without loading when there is
     * one. Otherwise loads `path` and looks it up again; that second lookup
     * finds the new entry exactly when the name `load` stored it under is
     * the key `get` derives from the path, and aborts otherwise.
     */
    method GetOrLoad(path: string, files: set<string>, loader: AssetLoader) returns (r: Result<Handle, LoadError>)
      modifies this, loader
      ensures old(Get(path)).Some? ==>
        && r == Success(old(Get(path)).value)
        && handles == old(handles)
        && loader.requests == old(loader.requests)
      ensures old(Get(path)).None? && PrepareLoad(path, files).Failure? ==>
        && r == Failure(PrepareLoad(path, files).error)
        && handles == old(handles)
        && loader.requests == old(loader.requests)
      ensures old(Get(path)).None? && PrepareLoad(path, files).Success? ==>
        var plan := PrepareLoad(path, files).value;
        var n := |old(loader.requests)|;
        && loader.requests == old(loader.requests) + [TextureRequest(path, plan.format), SheetRequest(plan.ronPath, Handle(n))]
        && handles == old(handles)[plan.name := Handle(n + 1)]
        && (r.Success? <==> plan.name == LookupKey(path))
        && (r.Success? ==> r.value == Handle(n + 1))
        && (r.Failure? ==> r.error == MissingAfterLoad(LookupKey(path)))
    {
      var cached := Get(path);
      if cached.Some? {
        return Success(cached.value);
      }
      var loaded := Load(path, files, loader);
      if loaded.Fail? {
        return Failure(loaded.error);
      }
      var found := Get(path);
      if found.Some? {
        r := Success(found.value);
      } else {
        r := Failure(MissingAfterLoad(LookupKey(path)));
      }
    }

    /** Whether every stored handle has resolved in the asset storage. */
    function HasFinishedLoadingAll(resolved: set<Handle>): (r: bool)
      reads this
      ensures r <==> forall name | name in handles :: handles[name] in resolved
    {
      AllResolved(handles, resolved)
    }
  }
}
