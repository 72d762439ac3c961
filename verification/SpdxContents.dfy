/** Which files a bundle consists of, and what of them is in the merged document beside their elements
(enterprise/spdx/builder/builder.go, enterprise/spdx/builder/spdx.go, internal/profile/profile.go). */
module SpdxContents {
  import opened Strings
  import opened Extensions
  import opened SpdxMerge
  import opened SpdxBundle

  // ---------------------------------------------------------------- files

  /** What one entry of the list adds: nothing if it means no extension or extracting it fails, and else each of its
  files, filed under the last element of the name that is in the list, whatever the extension is named now. */
  ghost predicate Adds(world: World, available: seq<ExtensionRef>, arch: string, name: string, fails: bool,
                       files: seq<File>) {
    if fails || forall ref :: !IsMeant(available, name, ref) then files == []
    else
      exists ref, short :: IsMeant(available, name, ref) && IsLastElement(short, name)
                           && IsFiled(world.contents(arch, ref), short + "-" + arch, files)
  }

  predicate IsFiled(contents: seq<(string, string)>, source: string, files: seq<File>) {
    && |files| == |contents|
    && forall k :: 0 <= k < |files| ==>
         files[k].filename == contents[k].0 && files[k].content == contents[k].1 && files[k].source == source
  }

  function Flatten(pieces: seq<seq<File>>): seq<File> {
    if pieces == [] then [] else Flatten(pieces[..|pieces| - 1]) + pieces[|pieces| - 1]
  }

  lemma OneAdds(world: World, available: seq<ExtensionRef>, arch: string, name: string, fails: bool)
    ensures Adds(world, available, arch, name, fails, Extracted(world, arch, ImageAt(available, arch, name, fails)))
  {
    hide Resolve, Extracted, AfterLastSlash, IsLastElement, IsMeant;
    NoImage(world, arch);
    forall ref ensures Resolve(available, name) == Some(ref) <==> IsMeant(available, name, ref) {
      ResolvesIff(available, name, ref);
    }
    if !fails && Resolve(available, name).Some? {
      var ref := Resolve(available, name).value;
      var short := AfterLastSlash(name);
      LastElement(name);
      OneImage(world, arch, Image(short + "-" + arch, ref));
      assert IsFiled(world.contents(arch, ref), short + "-" + arch,
                     Filed(short + "-" + arch, world.contents(arch, ref)));
    }
  }

  /** The extensions' files are what the entries of the list add, in order. */
  lemma {:induction false} ExtractedInOrder(world: World, available: seq<ExtensionRef>, arch: string,
                                            extensions: seq<string>, failed: set<nat>) returns (pieces: seq<seq<File>>)
    ensures |pieces| == |extensions|
    ensures forall i :: 0 <= i < |pieces| ==>
      Adds(world, available, arch, extensions[i], i in failed, pieces[i])
    ensures Extracted(world, arch, ImagesOf(available, arch, extensions, failed)) == Flatten(pieces)
  {
    hide Adds, Extracted, ImageAt;
    if extensions == [] {
      pieces := [];
      NoImage(world, arch);
    } else {
      var n := |extensions| - 1;
      var before := ExtractedInOrder(world, available, arch, extensions[..n], failed);
      var last := Extracted(world, arch, ImageAt(available, arch, extensions[n], n in failed));
      OneAdds(world, available, arch, extensions[n], n in failed);
      assert extensions[..n + 1] == extensions;
      ExtractedNext(world, available, arch, extensions, failed, n);
      pieces := before + [last];
      assert pieces[..n] == before;
    }
  }

  // ---------------------------------------------------------------- the merged document

  /** Merging reports the first file that does not parse. */
  lemma {:induction false} FirstUnparsed(parse: string -> Option<Document>, arch: string, root: string,
                                         files: seq<File>,
                                         f: File)
    ensures MergeFiles(parse, arch, root, files) != TalosError
    ensures MergeFiles(parse, arch, root, files) == ParseError(f) <==>
      exists i :: 0 <= i < |files| && files[i] == f && parse(f.content).None?
                  && forall j :: 0 <= j < i ==> parse(files[j].content).Some?
  {
    MergeFilesMergesAll(parse, arch, root, files);
    if files != [] {
      var n := |files| - 1;
      FirstUnparsed(parse, arch, root, files[..n], f);
      MergeFilesMergesAll(parse, arch, root, files[..n]);
      assert forall j :: 0 <= j < n ==> files[..n][j] == files[j];
      assert files == files[..n] + [files[n]];
    }
  }

  /** It was created when Talos's own document of the architecture was, by the last file of that name; or nothing is
  said if there is none. */
  lemma {:induction false} CreatedWithTalos(parse: string -> Option<Document>, arch: string, root: string,
                                            files: seq<File>, i: nat)
    requires MergeFiles(parse, arch, root, files).Built? && i <= |files|
    requires forall j :: i <= j < |files| ==> files[j].filename != "talos-" + arch + ".spdx.json"
    requires i > 0 ==> files[i - 1].filename == "talos-" + arch + ".spdx.json"
    ensures i > 0 ==> parse(files[i - 1].content).Some?
    ensures MergeFiles(parse, arch, root, files).doc.created
         == if i == 0 then "" else parse(files[i - 1].content).value.created
  {
    if files != [] && i < |files| {
      var rest := files[..|files| - 1];
      assert MergeFiles(parse, arch, root, rest).Built?;
      CreatedWithTalos(parse, arch, root, rest, i);
    }
  }
}
