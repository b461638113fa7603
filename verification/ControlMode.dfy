/**
 The control-mode manager: the persisted mode, the transitioning flag, and the three things that
 touch them, namely loading the mode file, saving it, and marking a transition.

 File access is a choice made by the environment: a status call may find the file unreadable,
 unchanged since it was last cached, or worth reading again; a save may fail before the file is
 replaced, succeed, or fail when the directory is synced after the replacement.
 */
module ControlMode {
  import opened Wrappers

  datatype Mode = Off | Mcp | Picoclaw | Unknown(name: string)

  predicate ValidMode(m: Mode) {
    !m.Unknown?
  }

  datatype ModeFile = Missing | Text(mode: Mode)

  datatype FileAccess = Unreadable | Unchanged | Reread

  datatype SaveResult = FailedEarly | Saved | FailedLate

  datatype Manager = Manager(mode: Mode, loaded: bool, transitioning: bool, file: ModeFile, defaultMode: Mode)

  /** What the mode file says, read with the manager's defaults. */
  function ModeOf(file: ModeFile, defaultMode: Mode): Mode {
    match file
    case Missing => defaultMode
    case Text(m) => if ValidMode(m) then m else Off
  }

  function NewManager(file: ModeFile, defaultMode: Mode): Manager {
    Manager(Unknown(""), false, false, file, if ValidMode(defaultMode) then defaultMode else Off)
  }

  /** loadLocked: None is its error return. */
  function Load(m: Manager, access: FileAccess): Option<Manager> {
    if m.loaded && m.transitioning then Some(m)
    else if access.Unreadable? then None
    else if m.loaded && access.Unchanged? then Some(m)
    else Some(m.(mode := ModeOf(m.file, m.defaultMode), loaded := true))
  }

  /** saveLocked: the manager afterwards. */
  function Save(m: Manager, mode: Mode, r: SaveResult): Manager {
    if !ValidMode(mode) || r.FailedEarly? then m
    else m.(mode := mode, loaded := true, file := Text(mode))
  }

  ghost predicate ManagerOk(m: Manager) {
    && ValidMode(m.defaultMode)
    && (m.loaded ==> m.mode == ModeOf(m.file, m.defaultMode))
  }

  /** What a new manager finds in the file: a mode that was saved, off if the file names none, and the
      default, or off if that is none either, without a file. */
  lemma NewManagerReads(file: ModeFile, defaultMode: Mode, access: FileAccess)
    requires !access.Unreadable?
    ensures Load(NewManager(file, defaultMode), access).Some?
    ensures var m := Load(NewManager(file, defaultMode), access).value;
            && m.loaded && !m.transitioning && m.file == file && ValidMode(m.mode)
            && (file.Text? && ValidMode(file.mode) ==> m.mode == file.mode)
            && (file.Text? && !ValidMode(file.mode) ==> m.mode == Off)
            && (file.Missing? && ValidMode(defaultMode) ==> m.mode == defaultMode)
            && (file.Missing? && !ValidMode(defaultMode) ==> m.mode == Off)
  {
  }

  /** A mode that was saved, or replaced the file before the save failed, is the mode in force, and the
      mode that a later manager reads. */
  lemma SavedModeIsRead(m: Manager, mode: Mode, r: SaveResult, defaultMode: Mode, access: FileAccess)
    requires ValidMode(mode) && !r.FailedEarly? && !access.Unreadable?
    ensures Save(m, mode, r).mode == mode && Save(m, mode, r).loaded
    ensures Load(NewManager(Save(m, mode, r).file, defaultMode), access).Some?
    ensures Load(NewManager(Save(m, mode, r).file, defaultMode), access).value.mode == mode
  {
  }

  class ModeManager {
    var mode: Mode
    var loaded: bool
    var transitioning: bool
    var file: ModeFile
    const defaultMode: Mode

    ghost function View(): Manager
      reads this
    {
      Manager(mode, loaded, transitioning, file, defaultMode)
    }

    constructor (path: ModeFile, defaultMode: Mode)
      ensures View() == NewManager(path, defaultMode)
    {
      this.defaultMode := if ValidMode(defaultMode) then defaultMode else Off;
      mode, loaded, transitioning, file := Unknown(""), false, false, path;
    }

    /** Status under the manager's mutex. On an error the caller sees mode Off. */
    method Status(access: FileAccess) returns (ok: bool, current: Mode, moving: bool)
      modifies this
      ensures moving == transitioning == old(transitioning)
      ensures match Load(old(View()), access)
              case None => !ok && current == Off && View() == old(View())
              case Some(m) => ok && View() == m && current == m.mode
    {
      moving := transitioning;
      if loaded && transitioning {
        return true, mode, moving;
      }
      if access.Unreadable? {
        return false, Off, moving;
      }
      if !(loaded && access.Unchanged?) {
        match file {
          case Missing => mode := defaultMode;
          case Text(m) => mode := if ValidMode(m) then m else Off;
        }
        loaded := true;
      }
      return true, mode, moving;
    }

    method SaveMode(next: Mode, r: SaveResult) returns (ok: bool)
      modifies this
      ensures View() == Save(old(View()), next, r)
      ensures ok <==> ValidMode(next) && r == Saved
    {
      if !ValidMode(next) || r.FailedEarly? {
        return false;
      }
      file := Text(next);
      mode, loaded := next, true;
      return r.Saved?;
    }

    method SetTransitioning(on: bool)
      modifies this
      ensures View() == old(View()).(transitioning := on)
    {
      transitioning := on;
    }
  }
}
