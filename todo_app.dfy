/** The App component: its six pieces of state as the fields of one object, and one
    method per handler. Each handler overwrites only the fields it sets, and the list
    computations it passes to setTasks are the functions of TaskList. */
module TodoApp {
  import opened Wrappers
  import opened JsString
  import opened TaskList
  import Preference

  class App {
    var tasks: seq<Task>
    var newTask: string
    var editingTaskId: Option<TaskId>
    var editedText: string
    var filter: string
    var darkMode: bool

    /** The initial state given to useState. */
    constructor ()
      ensures tasks == [] && newTask == "" && editingTaskId == None && editedText == ""
      ensures filter == "all" && !darkMode
    {
      tasks := [];
      newTask := "";
      editingTaskId := None;
      editedText := "";
      filter := "all";
      darkMode := false;
    }

    /** The tasks on screen, recomputed from tasks and filter alone. */
    function FilteredTasks(): (r: seq<Task>)
      reads this`tasks, this`filter
      ensures r == Filtered(tasks, filter)
      ensures IsSubsequence(r, tasks)
      ensures forall t :: t in r <==> t in tasks && Shown(t, filter)
    {
      FilteredIsSubsequence(tasks, filter);
      Filtered(tasks, filter)
    }

    /** The add-box's onChange. */
    method SetNewTask(value: string)
      modifies this`newTask
      ensures newTask == value
    {
      newTask := value;
    }

    /** The edit box's onChange. */
    method SetEditedText(value: string)
      modifies this`editedText
      ensures editedText == value
    {
      editedText := value;
    }

    /** A filter button's onClick: the only handler that changes the filter. */
    method SetFilter(value: string)
      modifies this`filter
      ensures filter == value
    {
      filter := value;
    }

    /** Adds the add-box text as a new pending task with the given id. A blank add-box
        changes nothing; otherwise the text is stored as typed, untrimmed, and the
        add-box is cleared. */
    method AddTask(id: TaskId)
      modifies this`tasks, this`newTask
      ensures IsBlank(old(newTask)) ==> tasks == old(tasks) && newTask == old(newTask)
      ensures !IsBlank(old(newTask)) ==> tasks == Appended(old(tasks), id, old(newTask)) && newTask == ""
      ensures DistinctIds(old(tasks)) && id !in Ids(old(tasks)) ==> DistinctIds(tasks)
    {
      if Trim(newTask) != "" {
        if DistinctIds(tasks) && id !in Ids(tasks) {
          AppendedFreshKeepsDistinct(tasks, id, newTask);
        }
        tasks := Appended(tasks, id, newTask);
        newTask := "";
      }
    }

    /** Opens a task for editing, seeding the edit box with its text. A previous unsaved
        edit is dropped; no task changes. */
    method StartEditing(id: TaskId, text: string)
      modifies this`editingTaskId, this`editedText
      ensures editingTaskId == Some(id) && editedText == text
    {
      editingTaskId := Some(id);
      editedText := text;
    }

    /** Writes the edit box's text, as it is, into every task with the given id (even an
        empty or blank text), and closes the edit. */
    method SaveEdit(id: TaskId)
      modifies this`tasks, this`editingTaskId
      ensures tasks == WithText(old(tasks), id, editedText) && editingTaskId == None
    {
      tasks := WithText(tasks, id, editedText);
      editingTaskId := None;
    }

    /** Flips the completed flag of every task with the given id. */
    method ToggleCompletion(id: TaskId)
      modifies this`tasks
      ensures tasks == Toggled(old(tasks), id)
    {
      tasks := Toggled(tasks, id);
    }

    /** The theme switch's onChange. */
    method ToggleDarkMode()
      modifies this`darkMode
      ensures darkMode == !old(darkMode)
    {
      darkMode := !darkMode;
    }

    /** Start-up: the flag becomes what the store held, and the value to write back is
        returned. The load happens before the first save (see Preference.Mount). */
    method Mount(stored: Option<string>) returns (saved: string)
      modifies this`darkMode
      ensures darkMode == Preference.Loaded(stored)
      ensures Some(saved) == Preference.Mount(stored).stored
    {
      darkMode := Preference.Loaded(stored);
      saved := Preference.Stored(darkMode);
    }

    /** The string the save effect writes for the current flag; loading it gives the
        flag back. */
    method SavedPreference() returns (s: string)
      ensures Preference.Loaded(Some(s)) == darkMode
    {
      s := Preference.Stored(darkMode);
    }
  }
}
