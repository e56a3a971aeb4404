/** The conformer record the utilities read and update, and the file system
    they work on: a set of folders and a map from file paths to their lines. */
module Conformers {
  import opened Builtins
  import opened Paths

  /** The attributes of a conformer object that the modelled functions touch.
      `optEnergy`, `info` and `cregenSort` are the entries `"energy"`, `"info"`
      and `"cregen_sort"` of its `optimization_info` dictionary. */
  datatype Conformer = Conformer(
    id: int,
    xtbEnergy: Option<real>,
    relXtbEnergy: Option<real>,
    freeEnergy: real,
    gi: real,
    bmWeight: real,
    optEnergy: real,
    info: string,
    cregenSort: string)

  /** `"CONF" + str(id)`. */
  function ConfName(id: int): string
  {
    "CONF" + IntToString(id)
  }

  /** `os.path.join(cwd, "CONF" + str(id), foldername)`. */
  function ConfFolder(cwd: string, id: int, foldername: string): string
  {
    Join(Join(cwd, ConfName(id)), foldername)
  }

  /** The folders and files of the part of the file system CENSO works in. */
  class Disk {
    var folders: set<string>
    var files: map<string, seq<string>>
  }
}
