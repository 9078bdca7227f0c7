/** Project creation (src/ui/dialogs/create_project_dialog.py, the second and
    effective definition of `CreateProjectDialog`): the file-name sanitiser, the
    JSON skeleton written for a new project, and the guard of the "create" button.
    The file write itself is I/O; whether it succeeded is a parameter. */
module CreateProject {
  import opened Text
  import ProjectData

  // ---------------------------------------------------------------------------
  // Python's str.isalnum() and str.lower(), exact on U+0000..U+00FF

  predicate IsAlnum(c: char) {
    || ('0' <= c <= '9') || ('A' <= c <= 'Z') || ('a' <= c <= 'z')
    || c == '\U{aa}' || c == '\U{b2}' || c == '\U{b3}' || c == '\U{b5}' || c == '\U{b9}'
    || c == '\U{ba}' || ('\U{bc}' <= c <= '\U{be}')
    || ('\U{c0}' <= c <= '\U{d6}') || ('\U{d8}' <= c <= '\U{f6}') || ('\U{f8}' <= c <= '\U{ff}')
  }

  predicate IsUpper(c: char) {
    ('A' <= c <= 'Z') || ('\U{c0}' <= c <= '\U{d6}') || ('\U{d8}' <= c <= '\U{de}')
  }

  function LowerChar(c: char): (r: char)
    ensures IsAlnum(c) ==> IsAlnum(r)
    ensures !IsUpper(r)
  {
    if IsUpper(c) then (c as int + 32) as char else c
  }

  function Lower(s: string): (r: string)
    ensures |r| == |s| && forall i :: 0 <= i < |s| ==> r[i] == LowerChar(s[i])
  {
    seq(|s|, i requires 0 <= i < |s| => LowerChar(s[i]))
  }

  /** `"".join([c if c.isalnum() else "_" for c in name])`. */
  function Underscored(name: string): (r: string)
    ensures |r| == |name|
  {
    seq(|name|, i requires 0 <= i < |name| => if IsAlnum(name[i]) then name[i] else '_')
  }

  /** The sanitised name: the join, then `.lower()`. */
  function SafeName(name: string): string {
    Lower(Underscored(name))
  }

  /** Each character becomes its lower-case form when alphanumeric and '_' otherwise. */
  lemma SafeNameCharwise(name: string)
    ensures |SafeName(name)| == |name|
    ensures forall i :: 0 <= i < |name| ==>
      SafeName(name)[i] == if IsAlnum(name[i]) then LowerChar(name[i]) else '_'
  {
  }

  /** A sanitised name has only lower-case alphanumerics and '_' (so no path
      separator), and sanitising it again changes nothing. */
  lemma SafeNameIsSafe(name: string)
    ensures forall i :: 0 <= i < |SafeName(name)| ==>
      SafeName(name)[i] == '_' || (IsAlnum(SafeName(name)[i]) && !IsUpper(SafeName(name)[i]))
    ensures SafeName(SafeName(name)) == SafeName(name)
  {
    var s := SafeName(name);
    assert forall i :: 0 <= i < |s| ==> LowerChar(s[i]) == s[i];
  }

  // ---------------------------------------------------------------------------
  // File name and skeleton

  function FileName(name: string): string {
    SafeName(name) + ".json"
  }

  /** `os.path.join(folder, filename)` on POSIX, for a file name that is not absolute. */
  function JoinPath(folder: string, file: string): string {
    if folder == [] || folder[|folder| - 1] == '/' then folder + file else folder + "/" + file
  }

  function FullPath(name: string, folder: string): (p: string)
    ensures |p| >= |FileName(name)| && p[|p| - |FileName(name)|..] == FileName(name)
  {
    JoinPath(folder, FileName(name))
  }

  /** `infoProjeto`. */
  datatype ProjectInfo = ProjectInfo(name: string, modifiedAt: string, isLocked: bool, author: string)

  /** The JSON object written for a new project. */
  datatype ProjectFile = ProjectFile(
    schemaVersion: string,
    info: ProjectInfo,
    participants: seq<ProjectData.Participant>,
    videos: seq<ProjectData.Video>)

  /** The skeleton for `name`; `isoNow` is `datetime.utcnow().isoformat()`. */
  function Skeleton(name: string, isoNow: string): (p: ProjectFile)
    ensures p.schemaVersion == "3.1" && p.info.name == name && !p.info.isLocked
    ensures p.participants == [] && p.videos == []
    ensures p.info.modifiedAt == isoNow + "Z" && p.info.author == "Usu\U{e1}rio"
  {
    ProjectFile("3.1", ProjectInfo(name, isoNow + "Z", false, "Usu\U{e1}rio"), [], [])
  }

  /** `create_project_file`: the path written to and the record written there, or
      `None` when the write failed. `isoNow` is the UTC clock reading. */
  function CreateProjectFile(name: string, folder: string, isoNow: string, writeOk: bool)
    : (r: Option<(string, ProjectFile)>)
    ensures r.Some? <==> writeOk
    ensures r.Some? ==>
      var (path, record) := r.value;
      && |path| >= |FileName(name)| && path[|path| - |FileName(name)|..] == FileName(name)
      && record.schemaVersion == "3.1" && record.info.name == name && !record.info.isLocked
      && record.info.modifiedAt == isoNow + "Z"
      && record.participants == [] && record.videos == []
  {
    if writeOk then Some((FullPath(name, folder), Skeleton(name, isoNow))) else None
  }

  /** `finish`: the (name, path) pair emitted with `project_created` (after which the
      dialog accepts), or `None` when nothing is emitted. */
  function Finish(name: string, folder: string, isoNow: string, writeOk: bool): (r: Option<(string, string)>)
    ensures r.Some? <==> name != [] && folder != [] && writeOk
    ensures r.Some? ==> r.value.0 == name && r.value.1 == FullPath(name, folder)
  {
    if name != [] && folder != [] then
      match CreateProjectFile(name, folder, isoNow, writeOk)
      case Some((path, _)) => if path != [] then Some((name, path)) else None
      case None => None
    else None
  }
}
