/** `generateDesignSystem(fileKey)`: create the output directory, fetch the
    file, its styles and its components together, normalise the styles and
    components, write the documentation, and report what was documented.

    How the generator's module sees the Figma adapter is a parameter: the
    source binds `figmaService` to the default export of the adapter's
    module, which is the class, not an instance; `ExportedClass` models that
    binding and `Instance` a constructed service. */
module DesignSystem {
  import opened Wrappers
  import opened Errors
  import opened Text
  import opened Payloads
  import opened FigmaService
  import opened Normalizer
  import opened Pages
  import opened Disk
  import opened Documentation

  /** What `figmaService` denotes in the generator's module. */
  datatype ServiceBinding = ExportedClass | Instance(service: Service)

  /** `figmaService.getFile(fileKey)` when `figmaService` is the class: the
      class has no static `getFile`. */
  const NotAFunction: Error := TypeError("figmaService.getFile is not a function")

  /** `style.style_type.toLowerCase()` on a style without a type. */
  const UnreadableStyleType: Error := TypeError("Cannot read properties of undefined (reading 'toLowerCase')")

  datatype Stats = Stats(styles: nat, components: nat)

  /** The object `generateDesignSystem` resolves with. */
  datatype GenerationResult = GenerationResult(success: bool, outputDir: string, fileKey: Option<string>, stats: Stats)

  /** The three payloads `Promise.all` resolves with. */
  datatype Fetched = Fetched(file: Option<FileData>, styles: StylesEnvelope, components: ComponentsEnvelope)

  /** `Promise.all([getFile, getFileStyles, getFileComponents])`: it resolves
      when all three do, and otherwise rejects with the first rejection in
      array order. */
  function FetchAll(svc: Service, envToken: Option<string>, fileKey: Option<string>): (r: Result<Fetched, Error>)
    ensures r.Success? <==> GetFile(svc, envToken, fileKey).result.Success?
                            && GetFileStyles(svc, fileKey).result.Success?
                            && GetFileComponents(svc, fileKey).result.Success?
    ensures r.Success? ==> r.value == Fetched(GetFile(svc, envToken, fileKey).result.value,
                                              GetFileStyles(svc, fileKey).result.value,
                                              GetFileComponents(svc, fileKey).result.value)
    ensures GetFile(svc, envToken, fileKey).result.Failure? ==> r == Failure(GetFile(svc, envToken, fileKey).result.error)
    ensures GetFile(svc, envToken, fileKey).result.Success? && GetFileStyles(svc, fileKey).result.Failure?
            ==> r == Failure(GetFileStyles(svc, fileKey).result.error)
    ensures GetFile(svc, envToken, fileKey).result.Success? && GetFileStyles(svc, fileKey).result.Success?
            && GetFileComponents(svc, fileKey).result.Failure?
            ==> r == Failure(GetFileComponents(svc, fileKey).result.error)
  {
    var file := GetFile(svc, envToken, fileKey).result;
    var styles := GetFileStyles(svc, fileKey).result;
    var components := GetFileComponents(svc, fileKey).result;
    match (file, styles, components)
    case (Failure(e), _, _) => Failure(e)
    case (_, Failure(e), _) => Failure(e)
    case (_, _, Failure(e)) => Failure(e)
    case (Success(f), Success(s), Success(c)) => Success(Fetched(f, s, c))
  }

  /** What follows a resolved `Promise.all`: normalise, document, report.
      `root` is the output directory once it exists. */
  function AfterFetch(root: Disk, fetched: Fetched, outputDir: string, fileKey: Option<string>,
                      startCase: string -> string): (r: Outcome<GenerationResult>)
    ensures r.result.Success? <==> AllHaveStyleType(StylesOf(fetched.styles)) && fetched.file.Some?
    ensures !AllHaveStyleType(StylesOf(fetched.styles)) ==> r == Outcome(root, Failure(UnreadableStyleType))
    ensures AllHaveStyleType(StylesOf(fetched.styles)) && fetched.file.None?
            ==> r == Outcome(root.(dirs := root.dirs + {AssetsDir}), Failure(UnreadableFileName))
    ensures r.result.Failure? ==> r.disk.files == root.files && root.dirs <= r.disk.dirs
    ensures r.result.Success? ==>
              var styles := ProcessStyles(StylesOf(fetched.styles));
              var components := ProcessComponents(ComponentsOf(fetched.components));
              && r.result.value == GenerationResult(true, outputDir, fileKey, Stats(|styles|, |components|))
              && Documented(root, r.disk, fetched.file.value, styles, components, startCase)
  {
    var raws := StylesOf(fetched.styles);
    if !AllHaveStyleType(raws) then Outcome(root, Failure(UnreadableStyleType))
    else
      var styles := ProcessStyles(raws);
      var components := ProcessComponents(ComponentsOf(fetched.components));
      var doc := GenerateDocumentation(root, fetched.file, styles, components, startCase);
      if doc.result.Failure? then Outcome(doc.disk, Failure(doc.result.error))
      else Outcome(doc.disk, Success(GenerationResult(true, outputDir, fileKey, Stats(|styles|, |components|))))
  }

  /** `generateDesignSystem(fileKey)`.  `envToken` is the environment's access
      token, `outputDir` the output directory's name, and `disk` the output
      directory before the call; the directory itself is created first. */
  function GenerateDesignSystem(binding: ServiceBinding, envToken: Option<string>, outputDir: string,
                                startCase: string -> string, disk: Disk, fileKey: Option<string>)
    : (r: Outcome<GenerationResult>)
    ensures disk.dirs + {OutputRoot} <= r.disk.dirs
    ensures binding.ExportedClass? ==> r == Outcome(WithRoot(disk), Failure(NotAFunction))
    ensures r.result.Failure? ==> r.disk.files == disk.files
    ensures r.result.Success? ==> binding.Instance? && Present(fileKey) && Present(envToken)
    ensures r.result.Success? ==> r.result.value.success && r.result.value.outputDir == outputDir
                                  && r.result.value.fileKey == fileKey
  {
    var root := Apply(disk, [Mkdir(OutputRoot)]);
    ApplyMkdir(disk, OutputRoot);
    match binding
    case ExportedClass => Outcome(root, Failure(NotAFunction))
    case Instance(svc) =>
      match FetchAll(svc, envToken, fileKey)
      case Failure(e) => Outcome(root, Failure(e))
      case Success(fetched) => AfterFetch(root, fetched, outputDir, fileKey, startCase)
  }

  // ---------------------------------------------------------------------------
  // What the run depends on
  // ---------------------------------------------------------------------------

  /** The raw styles the client lists for `key`: none when the response has
      no data, no `meta` or no list. */
  function UpstreamStyles(svc: Service, key: string): seq<RawStyle> {
    match svc.client.fileStyles(key)
    case Success(Some(env)) => StylesOf(env)
    case _ => []
  }

  function UpstreamComponents(svc: Service, key: string): seq<RawComponent> {
    match svc.client.fileComponents(key)
    case Success(Some(env)) => ComponentsOf(env)
    case _ => []
  }

  /** Everything a run needs to succeed: a file key and a token, three
      resolved fetches with file data, and a type on every style. */
  predicate Ready(svc: Service, envToken: Option<string>, fileKey: Option<string>) {
    && Present(fileKey) && Present(envToken)
    && svc.client.file(fileKey.value).Success? && svc.client.file(fileKey.value).value.Some?
    && svc.client.fileStyles(fileKey.value).Success?
    && svc.client.fileComponents(fileKey.value).Success?
    && AllHaveStyleType(UpstreamStyles(svc, fileKey.value))
  }

  /** The output directory with the directory itself created. */
  function WithRoot(disk: Disk): Disk {
    disk.(dirs := disk.dirs + {OutputRoot})
  }

  // ---------------------------------------------------------------------------
  // Properties
  // ---------------------------------------------------------------------------

  /** As written, every run rejects with a `TypeError` once the output
      directory exists, whatever the file key, token or Figma file. */
  lemma AsWrittenAlwaysFails(envToken: Option<string>, outputDir: string, startCase: string -> string,
                             disk: Disk, fileKey: Option<string>)
    ensures GenerateDesignSystem(ExportedClass, envToken, outputDir, startCase, disk, fileKey)
            == Outcome(WithRoot(disk), Failure(NotAFunction))
  {
  }

  /** With a constructed service, a run succeeds exactly when it is `Ready`. */
  lemma {:induction false} SucceedsIffReady(svc: Service, envToken: Option<string>, outputDir: string,
                                            startCase: string -> string, disk: Disk, fileKey: Option<string>)
    ensures GenerateDesignSystem(Instance(svc), envToken, outputDir, startCase, disk, fileKey).result.Success?
            <==> Ready(svc, envToken, fileKey)
  {
    if Present(fileKey) {
      var fetched := FetchAll(svc, envToken, fileKey);
      if fetched.Success? {
        assert StylesOf(fetched.value.styles) == UpstreamStyles(svc, fileKey.value);
      }
    }
  }

  /** Why a run with a constructed service rejects, in the order the causes
      are met: the file-key and token checks of `getFile`, then the first
      client rejection in array order, then a style without a type, then a
      file without data.  Only the last leaves more than the output directory
      behind: the assets directory. */
  lemma RejectionCauses(svc: Service, envToken: Option<string>, outputDir: string,
                        startCase: string -> string, disk: Disk, fileKey: Option<string>)
    ensures var r := GenerateDesignSystem(Instance(svc), envToken, outputDir, startCase, disk, fileKey);
            && (!Present(fileKey) ==> r == Outcome(WithRoot(disk), Failure(FileKeyRequired)))
            && (Present(fileKey) && !Present(envToken) ==> r == Outcome(WithRoot(disk), Failure(AccessTokenNotConfigured)))
  {
  }

  lemma ClientRejections(svc: Service, envToken: Option<string>, outputDir: string,
                         startCase: string -> string, disk: Disk, key: string)
    requires key != "" && Present(envToken)
    ensures var r := GenerateDesignSystem(Instance(svc), envToken, outputDir, startCase, disk, Some(key));
            var file := svc.client.file(key);
            var styles := svc.client.fileStyles(key);
            var components := svc.client.fileComponents(key);
            && (file.Failure? ==> r == Outcome(WithRoot(disk), Failure(file.error)))
            && (file.Success? && styles.Failure? ==> r == Outcome(WithRoot(disk), Failure(styles.error)))
            && ((file.Success? && styles.Success? && components.Failure?)
                ==> r == Outcome(WithRoot(disk), Failure(components.error)))
  {
  }

  lemma PayloadRejections(svc: Service, envToken: Option<string>, outputDir: string,
                          startCase: string -> string, disk: Disk, key: string)
    requires key != "" && Present(envToken)
    requires svc.client.file(key).Success? && svc.client.fileStyles(key).Success?
             && svc.client.fileComponents(key).Success?
    ensures var r := GenerateDesignSystem(Instance(svc), envToken, outputDir, startCase, disk, Some(key));
            && (!AllHaveStyleType(UpstreamStyles(svc, key)) ==> r == Outcome(WithRoot(disk), Failure(UnreadableStyleType)))
            && ((AllHaveStyleType(UpstreamStyles(svc, key)) && svc.client.file(key).value.None?)
                ==> r == Outcome(disk.(dirs := disk.dirs + {OutputRoot, AssetsDir}), Failure(UnreadableFileName)))
  {
    ApplyMkdir(disk, OutputRoot);
    var fetched := FetchAll(svc, envToken, Some(key));
    assert fetched.Success?;
    assert StylesOf(fetched.value.styles) == UpstreamStyles(svc, key);
    assert fetched.value.file == svc.client.file(key).value;
  }

  /** A ready run resolves with counts equal to the lengths of the upstream
      lists and leaves the documentation of the normalised styles and
      components in the output directory. */
  lemma GenerationOutput(svc: Service, envToken: Option<string>, outputDir: string,
                         startCase: string -> string, disk: Disk, fileKey: Option<string>)
    requires Ready(svc, envToken, fileKey)
    ensures var r := GenerateDesignSystem(Instance(svc), envToken, outputDir, startCase, disk, fileKey);
            var key := fileKey.value;
            && r.result == Success(GenerationResult(true, outputDir, fileKey,
                                                    Stats(|UpstreamStyles(svc, key)|, |UpstreamComponents(svc, key)|)))
            && Documented(WithRoot(disk), r.disk, svc.client.file(key).value.value,
                          ProcessStyles(UpstreamStyles(svc, key)), ProcessComponents(UpstreamComponents(svc, key)),
                          startCase)
  {
    var key := fileKey.value;
    ApplyMkdir(disk, OutputRoot);
    var fetched := FetchAll(svc, envToken, fileKey);
    assert fetched.Success?;
    assert StylesOf(fetched.value.styles) == UpstreamStyles(svc, key);
    assert ComponentsOf(fetched.value.components) == UpstreamComponents(svc, key);
    assert fetched.value.file == Some(svc.client.file(key).value.value);
  }

  /** The index page of a ready run names the file and reports the very
      counts the run resolves with. */
  lemma IndexReportsStats(svc: Service, envToken: Option<string>, outputDir: string,
                          startCase: string -> string, disk: Disk, fileKey: Option<string>)
    requires Ready(svc, envToken, fileKey)
    ensures var r := GenerateDesignSystem(Instance(svc), envToken, outputDir, startCase, disk, fileKey);
            var name := svc.client.file(fileKey.value).value.value.name;
            && r.result.Success?
            && Holds(r.disk, IndexPath, Unlines(IndexLines(name, r.result.value.stats.styles, r.result.value.stats.components)))
            && ReadIndex(IndexLines(name, r.result.value.stats.styles, r.result.value.stats.components))
               == Some(IndexView(name, r.result.value.stats.styles, r.result.value.stats.components))
  {
    var r := GenerateDesignSystem(Instance(svc), envToken, outputDir, startCase, disk, fileKey);
    GenerationOutput(svc, envToken, outputDir, startCase, disk, fileKey);
    IndexRoundTrip(svc.client.file(fileKey.value).value.value.name, r.result.value.stats.styles, r.result.value.stats.components);
  }
}
