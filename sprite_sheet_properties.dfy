/**
 * What the sprite-sheet cache guarantees, and where `load` and `get`
 * disagree: the extensions `load` accepts, the name and descriptor path it
 * derives, the key `get` looks up, and the loading-finished check.
 */
module SpriteSheetProperties {
  import opened Wrappers
  import opened PathText
  import opened SpriteSheets

  // ---------------------------------------------------------------------
  // The key `get` looks up.

  /**
   * The last '/'-piece of `prefix + base + rest` is `base + rest` when
   * `prefix` is empty or ends in '/', and it is cut back to `base` when
   * `rest` is empty or starts with '.'.
   */
  lemma LookupKeyParts(prefix: string, base: string, rest: string)
    requires prefix == "" || prefix[|prefix| - 1] == '/'
    requires forall j | 0 <= j < |base| :: base[j] != '/' && base[j] != '.'
    requires rest == "" || rest[0] == '.'
    requires forall j | 0 <= j < |rest| :: rest[j] != '/'
    ensures LookupKey(prefix + base + rest) == base
  {
    var s := prefix + base + rest;
    var tail := base + rest;
    assert s[|prefix|..] == tail;
    forall j | |prefix| <= j < |s| ensures s[j] != '/' {
      assert s[j] == tail[j - |prefix|];
    }
    if prefix != "" {
      LastIndexIs(s, '/', |s|, |prefix| - 1);
    }
    assert AfterLast(s, '/') == tail;
    if rest == "" {
      FirstIndexNone(tail, '.');
    } else {
      FirstIndexIs(tail, '.', |base|);
      assert tail[..|base|] == base;
    }
  }

  /** "a/b/hero.png", "hero.png" and "hero" all look up the key "hero". */
  lemma LookupKeyOfPath(dir: string, base: string, ext: string)
    requires forall j | 0 <= j < |base| :: base[j] != '/' && base[j] != '.'
    requires forall j | 0 <= j < |ext| :: ext[j] != '/'
    ensures LookupKey(dir + "/" + base + "." + ext) == base
    ensures LookupKey(base + "." + ext) == base
    ensures LookupKey(base) == base
  {
    PathShape(dir, base, ext);
    LookupKeyParts(dir + "/", base, "." + ext);
    LookupKeyParts("", base, "." + ext);
    LookupKeyParts("", base, "");
  }

  /** The three spellings of `LookupKeyOfPath`, regrouped. */
  lemma PathShape(dir: string, base: string, ext: string)
    ensures dir + "/" + base + "." + ext == (dir + "/") + base + ("." + ext)
    ensures base + "." + ext == "" + base + ("." + ext)
    ensures base == "" + base + ""
  {
  }

  /** Looking up a key normalises it to itself. */
  lemma LookupKeyIdempotent(name: string)
    ensures LookupKey(LookupKey(name)) == LookupKey(name)
  {
    var k := LookupKey(name);
    assert k == "" + k + "";
    LookupKeyParts("", k, "");
  }

  // ---------------------------------------------------------------------
  // The extensions `load` accepts.

  /** The lower-case extensions the image pattern names. */
  predicate AcceptedExtension(ext: string)
  {
    ext == "png" || ext == "jpg" || ext == "jpeg"
  }

  lemma LowerLetter(x: char)
    requires 'a' <= LowerChar(x) <= 'z'
    ensures x != '.' && x != '/'
  {
  }

  /** Text that lower-cases to an accepted extension is made of letters. */
  lemma ExtensionLetters(e: string)
    requires AcceptedExtension(Lower(e))
    ensures forall j | 0 <= j < |e| :: e[j] != '.' && e[j] != '/'
  {
    forall j | 0 <= j < |e| ensures e[j] != '.' && e[j] != '/' {
      assert 'a' <= Lower(e)[j] <= 'z';
      LowerLetter(e[j]);
    }
  }

  /** `path` ends in '.' and `k` characters that are neither '.' nor '/',
      and something comes before the '.'. */
  predicate DotSuffix(path: string, k: nat)
  {
    && 0 < k && k + 1 < |path|
    && path[|path| - k - 1] == '.'
    && forall j | |path| - k <= j < |path| :: path[j] != '.' && path[j] != '/'
  }

  /** A path the pattern accepts ends in such a dot suffix. */
  lemma AcceptedHasDotSuffix(path: string, ext: string)
    requires AcceptedExtension(ext) && EndsWithExtension(path, ext)
    ensures DotSuffix(path, |ext|)
  {
    var e := path[|path| - |ext|..];
    ExtensionLetters(e);
    forall j | |path| - |ext| <= j < |path| ensures path[j] != '.' && path[j] != '/' {
      assert path[j] == e[j - (|path| - |ext|)];
    }
  }

  /** The last '/' of such a path comes before its final '.'. */
  lemma LastSlashBeforeSuffix(path: string, k: nat)
    requires DotSuffix(path, k)
    ensures LastIndex(path, '/', |path|) < |path| - k - 1
  {
    var slash := LastIndex(path, '/', |path|);
    assert slash >= 0 ==> path[slash] == '/';
  }

  /** Such a path has a file name: its last '/'-piece. */
  lemma FileNameOfDotSuffix(path: string, k: nat)
    requires DotSuffix(path, k)
    ensures LastIndex(path, '/', |path|) < |path| - k - 1
    ensures FileName(path) == Some(AfterLast(path, '/'))
  {
    LastSlashBeforeSuffix(path, k);
    FileNameOfLastPiece(path);
  }

  /** A file name ending in '.' and `k` characters other than '.' has
      those characters as its extension, unless the '.' comes first. */
  lemma ExtensionOfDotSuffix(file: string, k: nat)
    requires 0 < k && k + 1 <= |file| && file[|file| - k - 1] == '.'
    requires forall j | |file| - k <= j < |file| :: file[j] != '.'
    ensures Extension(file) == if |file| == k + 1 then None else Some(file[|file| - k..])
  {
    LastIndexIs(file, '.', |file|, |file| - k - 1);
  }

  /** Any suffix of such a path that starts before the final '.' has the
      characters after that '.' as its extension, unless it starts with it. */
  lemma ExtensionOfSuffix(path: string, k: nat, off: nat)
    requires DotSuffix(path, k) && off <= |path| - k - 1
    ensures k + 1 <= |path[off..]|
    ensures Extension(path[off..]) ==
      if |path[off..]| == k + 1 then None else Some(path[|path| - k..])
  {
    var file := path[off..];
    assert file[|file| - k - 1] == path[|path| - k - 1];
    forall j | |file| - k <= j < |file| ensures file[j] != '.' {
      assert file[j] == path[off + j];
    }
    assert file[|file| - k..] == path[|path| - k..];
    ExtensionOfDotSuffix(file, k);
  }

  /**
   * For a path ending in a dot suffix, the file name is the last
   * '/'-piece, and its extension is the suffix, unless the file name is
   * nothing but the '.' and the suffix (a hidden file such as "/.png").
   */
  lemma PatternFixesExtension(path: string, k: nat)
    requires DotSuffix(path, k)
    ensures FileName(path) == Some(AfterLast(path, '/'))
    ensures |AfterLast(path, '/')| >= k + 1
    ensures Extension(AfterLast(path, '/')) ==
      if |AfterLast(path, '/')| == k + 1 then None else Some(path[|path| - k..])
  {
    FileNameOfDotSuffix(path, k);
    ExtensionOfSuffix(path, k, LastIndex(path, '/', |path|) + 1);
  }

  /**
   * `load` only ever loads PNG or JPEG textures: the pattern admits no
   * other extension, so the BMP and TGA arms of the format match and its
   * unsupported-format arm are never reached.
   */
  lemma LoadOnlyPngOrJpg(path: string, files: set<string>)
    ensures PrepareLoad(path, files).Success? ==>
      PrepareLoad(path, files).value.format == Png || PrepareLoad(path, files).value.format == Jpg
    ensures !(PrepareLoad(path, files).Failure? && PrepareLoad(path, files).error.UnsupportedFormat?)
  {
    if path in files && MatchesImagePattern(path) {
      AcceptedPathExtension(path);
      var file := AfterLast(path, '/');
      if Extension(file).Some? {
        PrepareLoadSteps(path, files, file, Extension(file).value);
      }
    }
  }

  /** The extension of a path the pattern accepts, when it has one,
      lower-cases to "png", "jpg" or "jpeg". */
  lemma AcceptedPathExtension(path: string)
    requires MatchesImagePattern(path)
    ensures FileName(path) == Some(AfterLast(path, '/'))
    ensures Extension(AfterLast(path, '/')).Some? ==>
      AcceptedExtension(Lower(Extension(AfterLast(path, '/')).value))
  {
    if EndsWithExtension(path, "png") {
      ExtensionOfEnding(path, "png");
    } else if EndsWithExtension(path, "jpg") {
      ExtensionOfEnding(path, "jpg");
    } else {
      ExtensionOfEnding(path, "jpeg");
    }
  }

  /** The same, for a path ending in one given accepted extension. */
  lemma ExtensionOfEnding(path: string, ext: string)
    requires AcceptedExtension(ext) && EndsWithExtension(path, ext)
    ensures FileName(path) == Some(AfterLast(path, '/'))
    ensures Extension(AfterLast(path, '/')).Some? ==>
      Lower(Extension(AfterLast(path, '/')).value) == ext
  {
    AcceptedHasDotSuffix(path, ext);
    PatternFixesExtension(path, |ext|);
    var e := path[|path| - |ext|..];
    assert Lower(e) == ext;
    var x := Extension(AfterLast(path, '/'));
    assert x.Some? ==> x.value == e;
  }

  /** A path the pattern rejects is not loaded, whatever files exist. */
  lemma LoadRequiresPattern(path: string, files: set<string>)
    requires !MatchesImagePattern(path)
    ensures PrepareLoad(path, files).Failure?
    ensures PrepareLoad(path, files).error.ImageNotFound? || PrepareLoad(path, files).error.PatternMismatch?
  {
  }

  // ---------------------------------------------------------------------
  // The name and the descriptor path `load` derives.

  /** An image file name `base` + "." + `ext`: a non-empty base without '/'
      that does not end in a line break and in which "." + `ext` does not
      occur, and an extension the pattern accepts. */
  predicate ImageFile(base: string, ext: string)
  {
    && AcceptedExtension(Lower(ext))
    && base != "" && base[|base| - 1] != '\n'
    && (forall j | 0 <= j < |base| :: base[j] != '/')
    && NoOccurrence(base, "." + ext)
  }

  /** A directory prefix: empty, or ending in '/'. */
  predicate DirectoryPrefix(prefix: string)
  {
    prefix == "" || prefix[|prefix| - 1] == '/'
  }

  /** An image path of the usual shape: the directories do not contain
      "." + `ext` either. */
  predicate ConventionalImagePath(prefix: string, base: string, ext: string)
  {
    DirectoryPrefix(prefix) && ImageFile(base, ext) && NoOccurrence(prefix + base, "." + ext)
  }

  /** The pattern accepts an image file in any directory. */
  lemma ImagePathMatches(prefix: string, base: string, ext: string)
    requires DirectoryPrefix(prefix) && ImageFile(base, ext)
    ensures EndsWithExtension(prefix + base + "." + ext, Lower(ext))
    ensures DotSuffix(prefix + base + "." + ext, |ext|)
  {
    var path := prefix + base + "." + ext;
    assert path[|path| - |ext|..] == ext;
    assert path[|path| - |ext| - 2] == base[|base| - 1];
    AcceptedHasDotSuffix(path, Lower(ext));
  }

  /** The last '/'-piece of an image path is the image file name. */
  lemma ImagePathFileName(prefix: string, base: string, ext: string)
    requires DirectoryPrefix(prefix) && ImageFile(base, ext)
    ensures AfterLast(prefix + base + "." + ext, '/') == base + "." + ext
  {
    var path := prefix + base + "." + ext;
    var tail := base + "." + ext;
    ExtensionLetters(ext);
    assert path[|prefix|..] == tail;
    forall j | |prefix| <= j < |path| ensures path[j] != '/' {
      assert path[j] == tail[j - |prefix|];
    }
    if prefix != "" {
      LastIndexIs(path, '/', |path|, |prefix| - 1);
    }
  }

  /** "." + an accepted extension has its '.' only in front. */
  lemma DotExtensionPattern(ext: string)
    requires AcceptedExtension(Lower(ext))
    ensures forall j | 1 <= j < |"." + ext| :: ("." + ext)[j] != '.'
    ensures forall j | 0 <= j < |"." + ext| :: ("." + ext)[j] != '/'
  {
    ExtensionLetters(ext);
    var pat := "." + ext;
    forall j | 1 <= j < |pat| ensures pat[j] == ext[j - 1] {
    }
  }

  /** `load`'s checks on a path whose file name and extension are known. */
  lemma PrepareLoadSteps(path: string, files: set<string>, file: string, ext: string)
    requires path in files && MatchesImagePattern(path)
    requires FileName(path) == Some(file) && Extension(file) == Some(ext)
    ensures var ronPath := ReplaceAll(path, "." + ext, ".ron");
      PrepareLoad(path, files) ==
        if ronPath !in files then Failure(DescriptorNotFound(ronPath))
        else match ImageFormatOf(ext)
          case None => Failure(UnsupportedFormat(ext))
          case Some(format) => Success(LoadPlan(ReplaceAll(file, "." + ext, ""), ronPath, format))
  {
  }

  /** An image path matches the pattern, its file name is the image file
      name and its extension is `ext`. */
  lemma ImagePathNames(prefix: string, base: string, ext: string)
    requires DirectoryPrefix(prefix) && ImageFile(base, ext)
    ensures MatchesImagePattern(prefix + base + "." + ext)
    ensures FileName(prefix + base + "." + ext) == Some(base + "." + ext)
    ensures Extension(base + "." + ext) == Some(ext)
  {
    var path := prefix + base + "." + ext;
    var file := base + "." + ext;
    ImagePathMatches(prefix, base, ext);
    assert MatchesImagePattern(path);
    ImagePathFileName(prefix, base, ext);
    PatternFixesExtension(path, |ext|);
    assert FileName(path) == Some(file);
    assert path[|path| - |ext|..] == ext;
  }

  /**
   * What `load` does with an image file in any directory: it stores the
   * sheet under the base name, and needs the descriptor at the path with
   * every "." + `ext` replaced by ".ron".
   */
  lemma ImagePathPlan(prefix: string, base: string, ext: string, files: set<string>)
    requires DirectoryPrefix(prefix) && ImageFile(base, ext)
    requires prefix + base + "." + ext in files
    ensures var path := prefix + base + "." + ext;
      var ronPath := ReplaceAll(path, "." + ext, ".ron");
      PrepareLoad(path, files) ==
        if ronPath !in files then Failure(DescriptorNotFound(ronPath))
        else Success(LoadPlan(base, ronPath, if Lower(ext) == "png" then Png else Jpg))
  {
    var path := prefix + base + "." + ext;
    var file := base + "." + ext;
    var pat := "." + ext;
    ImagePathNames(prefix, base, ext);
    PrepareLoadSteps(path, files, file, ext);
    DotExtensionPattern(ext);
    ReplaceAllFinal(base, pat, "");
    ConcatAssoc(base, ".", ext);
  }

  /**
   * What `load` does with an image path of the usual shape: it needs the
   * image and then the descriptor with the same base name beside it, and
   * stores the sheet under the base name.
   */
  lemma PlanOfImagePath(prefix: string, base: string, ext: string, files: set<string>)
    requires ConventionalImagePath(prefix, base, ext)
    ensures var path := prefix + base + "." + ext;
      var ronPath := prefix + base + ".ron";
      PrepareLoad(path, files) ==
        if path !in files then Failure(ImageNotFound(path))
        else if ronPath !in files then Failure(DescriptorNotFound(ronPath))
        else Success(LoadPlan(base, ronPath, if Lower(ext) == "png" then Png else Jpg))
  {
    var path := prefix + base + "." + ext;
    var pat := "." + ext;
    if path in files {
      ImagePathPlan(prefix, base, ext, files);
      DotExtensionPattern(ext);
      ReplaceAllFinal(prefix + base, pat, ".ron");
      ConcatAssoc(prefix + base, ".", ext);
    }
  }

  /** The image path and the descriptor path of `DescriptorPathRewritesDirectories`, regrouped. */
  lemma DirectoryPathShape(dir: string, base: string, ext: string)
    ensures dir + "." + ext + "/" + base + "." + ext == dir + ("." + ext) + ("/" + base + ("." + ext))
    ensures dir + ".ron" + ("/" + base + ".ron") == dir + ".ron/" + base + ".ron"
  {
  }

  /**
   * Every occurrence of the extension is replaced in the descriptor path,
   * directories included: the descriptor of "sprites.png/hero.png" is
   * looked for at "sprites.ron/hero.ron", not beside the image.
   */
  lemma DescriptorPathRewritesDirectories(dir: string, base: string, ext: string, files: set<string>)
    requires ImageFile(base, ext) && NoOccurrence(dir, "." + ext)
    requires dir + "." + ext + "/" + base + "." + ext in files
    ensures var path := dir + "." + ext + "/" + base + "." + ext;
      var ronPath := dir + ".ron/" + base + ".ron";
      PrepareLoad(path, files) ==
        if ronPath !in files then Failure(DescriptorNotFound(ronPath))
        else Success(LoadPlan(base, ronPath, if Lower(ext) == "png" then Png else Jpg))
  {
    var prefix := dir + "." + ext + "/";
    var pat := "." + ext;
    var rest := "/" + base + pat;
    ImagePathPlan(prefix, base, ext, files);
    DotExtensionPattern(ext);
    NoOccurrencePrepend('/', base, pat);
    ReplaceAllFinal("/" + base, pat, ".ron");
    ReplaceAllSplits(dir, rest, pat, ".ron");
    DirectoryPathShape(dir, base, ext);
  }

  /**
   * For an image path of the usual shape, `get` looks up the name `load`
   * stored exactly when the base name has no '.': "hero.v2.png" is stored
   * as "hero.v2" but looked up as "hero".
   */
  lemma LookupKeyOfImagePath(prefix: string, base: string, ext: string)
    requires ConventionalImagePath(prefix, base, ext)
    ensures LookupKey(prefix + base + "." + ext) == base <==> forall j | 0 <= j < |base| :: base[j] != '.'
  {
    ImagePathFileName(prefix, base, ext);
    var tail := base + "." + ext;
    if forall j | 0 <= j < |base| :: base[j] != '.' {
      FirstIndexIs(tail, '.', |base|);
      assert tail[..|base|] == base;
    } else {
      var i :| 0 <= i < |base| && base[i] == '.';
      assert tail[i] == '.';
    }
  }

  /**
   * Hence `get_or_load` on such a path with both files present loads it
   * and then finds the new entry exactly when the base name has no '.';
   * otherwise it aborts after loading.
   */
  lemma GetOrLoadFindsIff(prefix: string, base: string, ext: string, files: set<string>)
    requires ConventionalImagePath(prefix, base, ext)
    requires prefix + base + "." + ext in files && prefix + base + ".ron" in files
    ensures var path := prefix + base + "." + ext;
      && PrepareLoad(path, files).Success?
      && (PrepareLoad(path, files).value.name == LookupKey(path) <==> forall j | 0 <= j < |base| :: base[j] != '.')
  {
    PlanOfImagePath(prefix, base, ext, files);
    LookupKeyOfImagePath(prefix, base, ext);
  }

  /** Regrouping the image path of a base name with a '.'. */
  lemma DottedPathShape(prefix: string, stem: string, tag: string, ext: string)
    ensures prefix + stem + "." + tag + "." + ext == prefix + (stem + "." + tag) + "." + ext
    ensures prefix + stem + "." + tag + "." + ext == prefix + stem + ("." + tag + "." + ext)
    ensures prefix + (stem + "." + tag) + ".ron" == prefix + stem + "." + tag + ".ron"
  {
  }

  /** The pieces of a dotted base name have no '/' when the name has none. */
  lemma DottedParts(stem: string, tag: string, ext: string)
    requires forall j | 0 <= j < |stem + "." + tag| :: (stem + "." + tag)[j] != '/'
    requires forall j | 0 <= j < |ext| :: ext[j] != '/'
    ensures forall j | 0 <= j < |stem| :: stem[j] != '/'
    ensures forall j | 0 <= j < |"." + tag + "." + ext| :: ("." + tag + "." + ext)[j] != '/'
  {
    var base := stem + "." + tag;
    forall j | 0 <= j < |stem| ensures stem[j] != '/' {
      assert base[j] == stem[j];
    }
    forall j | 0 <= j < |tag| ensures tag[j] != '/' {
      assert base[|stem| + 1 + j] == tag[j];
    }
  }

  /**
   * A base name with a '.' in it, such as "hero.v2" in "hero.v2.png", is
   * loaded under the whole base name but looked up by the part before its
   * first '.', "hero": the lookup that ends `get_or_load` misses the entry
   * the load has just stored.
   */
  lemma DottedNameMissesItsEntry(prefix: string, stem: string, tag: string, ext: string, files: set<string>)
    requires ConventionalImagePath(prefix, stem + "." + tag, ext)
    requires forall j | 0 <= j < |stem| :: stem[j] != '.'
    requires prefix + stem + "." + tag + "." + ext in files
    requires prefix + stem + "." + tag + ".ron" in files
    ensures var path := prefix + stem + "." + tag + "." + ext;
      && PrepareLoad(path, files) == Success(LoadPlan(stem + "." + tag, prefix + stem + "." + tag + ".ron",
           if Lower(ext) == "png" then Png else Jpg))
      && LookupKey(path) == stem
  {
    var base := stem + "." + tag;
    var rest := "." + tag + "." + ext;
    DottedPathShape(prefix, stem, tag, ext);
    PlanOfImagePath(prefix, base, ext, files);
    ExtensionLetters(ext);
    DottedParts(stem, tag, ext);
    LookupKeyParts(prefix, stem, rest);
  }

  // ---------------------------------------------------------------------
  // The loading-finished check.

  /** An empty cache has finished loading, whatever has resolved. */
  lemma EmptyCacheHasFinished(resolved: set<Handle>)
    ensures AllResolved(map[], resolved)
  {
  }

  /** After storing `h` under `name`, everything has finished loading
      exactly when `h` has and every other entry has. */
  lemma AllResolvedAfterInsert(m: map<string, Handle>, name: string, h: Handle, resolved: set<Handle>)
    ensures AllResolved(m[name := h], resolved) <==> h in resolved && AllResolved(m - {name}, resolved)
  {
    var m' := m[name := h];
    if AllResolved(m', resolved) {
      assert h == m'[name];
      forall g | g in (m - {name}).Values ensures g in resolved {
        var k :| k in m - {name} && (m - {name})[k] == g;
        assert m'[k] == g;
      }
    }
    if h in resolved && AllResolved(m - {name}, resolved) {
      forall g | g in m'.Values ensures g in resolved {
        var k :| k in m' && m'[k] == g;
        if k != name {
          assert (m - {name})[k] == g;
        }
      }
    }
  }

  /** More resolved handles never turn a finished cache into an unfinished one. */
  lemma AllResolvedMonotone(m: map<string, Handle>, resolved: set<Handle>, more: set<Handle>)
    requires resolved <= more && AllResolved(m, resolved)
    ensures AllResolved(m, more)
  {
  }

  /**
   * Two `get_or_load` calls with the same path. When the first returns a
   * handle, the second returns the same handle and requests nothing more.
   * When the first aborts because the loaded name differs from the looked-up
   * key, the second loads again and aborts again.
   */
  method GetOrLoadTwice(cache: SpriteSheetHandles, path: string, files: set<string>, loader: AssetLoader)
    returns (first: Result<Handle, LoadError>, second: Result<Handle, LoadError>)
    modifies cache, loader
    ensures first.Success? ==> second == first
    ensures first.Success? ==> |loader.requests| <= |old(loader.requests)| + 2
    ensures first.Failure? && first.error.MissingAfterLoad? ==>
      second == first && |loader.requests| == |old(loader.requests)| + 4
  {
    first := cache.GetOrLoad(path, files, loader);
    if first.Success? {
      assert cache.Get(path) == Some(first.value);
    } else if first.error.MissingAfterLoad? {
      assert cache.Get(path).None? && PrepareLoad(path, files).Success?;
    }
    second := cache.GetOrLoad(path, files, loader);
  }

  /**
   * When a sheet is already stored under the stem, `get_or_load` on a
   * dotted path "stem.tag.ext" returns that other sheet and loads nothing,
   * whatever files exist.
   */
  method DottedNameReturnsStemEntry(cache: SpriteSheetHandles, prefix: string, stem: string, tag: string,
                                    ext: string, files: set<string>, loader: AssetLoader)
    returns (r: Result<Handle, LoadError>)
    requires ConventionalImagePath(prefix, stem + "." + tag, ext)
    requires forall j | 0 <= j < |stem| :: stem[j] != '.'
    requires stem in cache.handles
    modifies cache, loader
    ensures r == Success(old(cache.handles[stem]))
    ensures cache.handles == old(cache.handles)
    ensures loader.requests == old(loader.requests)
  {
    var rest := "." + tag + "." + ext;
    DottedPathShape(prefix, stem, tag, ext);
    ExtensionLetters(ext);
    DottedParts(stem, tag, ext);
    LookupKeyParts(prefix, stem, rest);
    r := cache.GetOrLoad(prefix + stem + "." + tag + "." + ext, files, loader);
  }
}
