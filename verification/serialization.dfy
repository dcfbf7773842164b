/** Project files (core/serialization.py): saving writes the project's
    document, loading rebuilds a project from a document, and a file name is
    suggested from the project's display name. The JSON text and the file
    itself are outside the model; a saved file is represented by its document. */
module Serializer {
  import opened Wrappers
  import opened Json
  import Text
  import FilePaths
  import Domain

  /** The canonical extension of project files. */
  const FileExtension: string := ".cobot3d"

  /** `save`: the document written for a project. */
  function Save(p: Domain.Project): (doc: Value)
    ensures doc.Obj? && doc.fields.Keys == {"name", "model_path", "model_transform", "paths", "metadata"}
    ensures doc.fields["name"] == Str(p.name)
    ensures doc.fields["paths"].Arr? && |doc.fields["paths"].items| == |p.paths|
    ensures doc.fields["metadata"] == Obj(p.metadata)
  {
    Domain.ProjectToDoc(p)
  }

  /** `load`: the project rebuilt from a parsed document. */
  function Load(doc: Value): (r: Result<Domain.Project, Domain.DocError>)
    ensures !doc.Obj? ==> r == Err(Domain.NotAnObject)
    ensures r == Domain.ProjectFromDoc(doc)
    ensures r.Ok? && "paths" in doc.fields && doc.fields["paths"].Arr? ==> |r.value.paths| == |doc.fields["paths"].items|
  {
    Domain.ProjectFromDoc(doc)
  }

  /** Loading what was saved gives the project back, up to an empty transform
      becoming the identity; name, path count and point counts are kept. */
  lemma LoadAfterSave(p: Domain.Project)
    ensures Load(Save(p)) == Ok(Domain.RoundTripped(p))
    ensures Load(Save(p)).value.name == p.name
    ensures |Load(Save(p)).value.paths| == |p.paths|
    ensures forall i :: 0 <= i < |p.paths| ==> |Load(Save(p)).value.paths[i].points| == |p.paths[i].points|
    ensures |p.modelTransform| > 0 ==> Load(Save(p)) == Ok(p)
  {
    Domain.ProjectRoundTrip(p);
  }

  /** The file name `suggest_path` derives: spaces become underscores, the
      result is lower-cased, and the extension is appended. */
  function SuggestedFileName(name: string): (r: string)
    ensures |r| == |name| + |FileExtension|
    ensures r[|name|..] == FileExtension
    ensures forall i :: 0 <= i < |name| ==> r[i] == (if name[i] == ' ' then '_' else Text.LowerChar(name[i]))
    ensures forall i :: 0 <= i < |r| ==> r[i] != ' ' && !Text.IsUpperAscii(r[i])
  {
    var stem := Text.Lower(Text.ReplaceChar(name, ' ', '_'));
    ExtensionIsPlain();
    assert forall i :: |name| <= i < |name| + |FileExtension| ==> (stem + FileExtension)[i] == FileExtension[i - |name|];
    stem + FileExtension
  }

  /** The extension has neither spaces nor capitals. */
  lemma ExtensionIsPlain()
    ensures forall i :: 0 <= i < |FileExtension| ==> FileExtension[i] != ' ' && !Text.IsUpperAscii(FileExtension[i])
  {
  }

  /** `suggest_path`: the directory joined with the suggested file name. */
  function SuggestPath(p: Domain.Project, directory: FilePaths.FilePath): (r: FilePaths.FilePath)
    ensures FilePaths.Parent(r) == directory
    ensures FilePaths.Name(r) == SuggestedFileName(p.name)
  {
    FilePaths.Join(directory, SuggestedFileName(p.name))
  }

  /** The suggested name carries the project-file extension as its suffix
      exactly when the project name is non-empty (".cobot3d" alone is a
      hidden file without a suffix). */
  lemma SuggestedSuffix(p: Domain.Project, directory: FilePaths.FilePath)
    ensures FilePaths.Suffix(FilePaths.Name(SuggestPath(p, directory))) == FileExtension <==> |p.name| > 0
  {
    var f := SuggestedFileName(p.name);
    assert f == f[..|p.name|] + FileExtension;
    if |p.name| > 0 {
      FilePaths.SuffixOfStemAndExtension(f[..|p.name|], FileExtension);
    } else {
      FilePaths.SuffixOfBareExtension(FileExtension);
    }
  }

  /** Deriving a file name from an already derived stem changes nothing. */
  lemma SuggestedStemIsStable(name: string)
    ensures SuggestedFileName(SuggestedFileName(name)[..|name|]) == SuggestedFileName(name)
  {
    var stem := SuggestedFileName(name)[..|name|];
    var again := SuggestedFileName(stem);
    assert forall i :: 0 <= i < |name| ==> again[i] == stem[i];
    assert again == stem + FileExtension;
  }
}
