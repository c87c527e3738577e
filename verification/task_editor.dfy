/** The task editor sheet: its state initialised from the edited task (or blank), the tag
    chips, the due-date controls, the save guard and the Task it saves. */
module TaskEditor {
  import opened Wrappers
  import opened Text
  import opened TaskModel

  function Remove(s: seq<string>, x: string): (r: seq<string>)
    ensures forall y :: y in r <==> y in s && y != x
  {
    if s == [] then []
    else if s[0] == x then Remove(s[1..], x)
    else
      assert forall y :: y in s[1..] ==> y in s;
      [s[0]] + Remove(s[1..], x)
  }

  lemma {:induction false} RemoveKeepsDistinct(s: seq<string>, x: string)
    requires NoDuplicates(s)
    ensures NoDuplicates(Remove(s, x))
  {
    if s != [] {
      assert NoDuplicates(s[1..]) by {
        forall i, j | 0 <= i < j < |s[1..]| ensures s[1..][i] != s[1..][j] {
          assert s[1..][i] == s[i + 1] && s[1..][j] == s[j + 1];
        }
      }
      RemoveKeepsDistinct(s[1..], x);
      if s[0] != x {
        var r := Remove(s[1..], x);
        assert s[0] !in s[1..] by {
          forall j | 0 <= j < |s[1..]| ensures s[1..][j] != s[0] {
            assert s[1..][j] == s[j + 1];
          }
        }
        forall i, j | 0 <= i < j < |[s[0]] + r| ensures ([s[0]] + r)[i] != ([s[0]] + r)[j] {
          if i == 0 {
            assert ([s[0]] + r)[j] == r[j - 1];
            assert r[j - 1] in r;
          }
        }
      }
    }
  }

  /** Tapping a chip: `selectedTags - tag` when selected, `selectedTags + tag` otherwise. */
  function ToggledTags(tags: seq<string>, tag: string): seq<string> {
    if tag in tags then Remove(tags, tag) else tags + [tag]
  }

  /** The Task built by the save button. Fields the editor does not set take the record's
      defaults, so completion and subtasks are reset even when a completed task is edited. */
  function BuildTask(original: Option<Task>, title: string, description: string, priority: TaskPriority,
                     dueDate: Option<int>, linkedGoalId: Option<string>, tags: seq<string>,
                     newId: string, now: int): Task {
    var id := if original.Some? then original.value.id else newId;
    var createdAt := if original.Some? then original.value.createdAt else now;
    NewTask(id, title, now).(description := description, priority := priority, dueDate := dueDate,
                             linkedGoalId := linkedGoalId, tags := tags, createdAt := createdAt)
  }

  /** The sheet's state. `original` is the task being edited, None for a new one. */
  class TaskEditor {
    const original: Option<Task>
    var title: string
    var description: string
    var priority: TaskPriority
    var dueDate: Option<int>
    var linkedGoalId: Option<string>
    var selectedTags: seq<string>

    ghost predicate Valid()
      reads this
    {
      NoDuplicates(selectedTags)
    }

    constructor(task: Option<Task>)
      ensures original == task && Valid()
      ensures task.Some? ==> (title == task.value.title && description == task.value.description
        && priority == task.value.priority && dueDate == task.value.dueDate
        && linkedGoalId == task.value.linkedGoalId && selectedTags == Dedup(task.value.tags))
      ensures task.None? ==> (title == "" && description == "" && priority == MEDIUM
        && dueDate == None && linkedGoalId == None && selectedTags == [])
    {
      original := task;
      if task.Some? {
        title := task.value.title;
        description := task.value.description;
        priority := task.value.priority;
        dueDate := task.value.dueDate;
        linkedGoalId := task.value.linkedGoalId;
        selectedTags := Dedup(task.value.tags);
      } else {
        title := "";
        description := "";
        priority := MEDIUM;
        dueDate := None;
        linkedGoalId := None;
        selectedTags := [];
      }
    }

    /** Typing in the title field; the save button follows whether the new title is blank. */
    method EditTitle(text: string)
      modifies this
      ensures title == text
      ensures CanSave() <==> !IsBlank(text)
      ensures description == old(description) && priority == old(priority) && dueDate == old(dueDate)
      ensures linkedGoalId == old(linkedGoalId) && selectedTags == old(selectedTags)
    {
      title := text;
    }

    /** Typing in the notes field; the notes never affect whether the task can be saved. */
    method EditDescription(text: string)
      modifies this
      ensures description == text
      ensures title == old(title) && priority == old(priority) && dueDate == old(dueDate)
      ensures linkedGoalId == old(linkedGoalId) && selectedTags == old(selectedTags)
      ensures CanSave() == old(CanSave())
    {
      description := text;
    }

    /** Tapping a priority chip. */
    method SelectPriority(p: TaskPriority)
      modifies this
      ensures priority == p
      ensures title == old(title) && description == old(description) && dueDate == old(dueDate)
      ensures linkedGoalId == old(linkedGoalId) && selectedTags == old(selectedTags)
    {
      priority := p;
    }

    method ToggleTag(tag: string)
      requires Valid()
      modifies this
      ensures Valid()
      ensures selectedTags == ToggledTags(old(selectedTags), tag)
      ensures tag in selectedTags <==> tag !in old(selectedTags)
      ensures title == old(title) && description == old(description) && priority == old(priority)
      ensures dueDate == old(dueDate) && linkedGoalId == old(linkedGoalId)
    {
      var isSelected := tag in selectedTags;
      ToggleFlipsMembership(selectedTags, tag);
      selectedTags := if isSelected then Remove(selectedTags, tag) else selectedTags + [tag];
    }

    /** The clear icon beside the date. */
    method ClearDueDate()
      modifies this
      ensures dueDate == None
      ensures title == old(title) && description == old(description) && priority == old(priority)
      ensures linkedGoalId == old(linkedGoalId) && selectedTags == old(selectedTags)
    {
      dueDate := None;
    }

    /** The picker's OK button: the picked date, which may be none. */
    method ConfirmDate(selected: Option<int>)
      modifies this
      ensures dueDate == selected
      ensures title == old(title) && description == old(description) && priority == old(priority)
      ensures linkedGoalId == old(linkedGoalId) && selectedTags == old(selectedTags)
    {
      dueDate := selected;
    }

    predicate CanSave()
      reads this
    {
      !IsBlank(title)
    }

    /** The save button: disabled (None) while the title is blank, otherwise the built task.
        `newId` and `now` stand for the id generator and the clock. */
    method Save(newId: string, now: int) returns (r: Option<Task>)
      ensures r.Some? <==> CanSave()
      ensures r.Some? ==> r.value == BuildTask(original, title, description, priority, dueDate,
                                               linkedGoalId, selectedTags, newId, now)
    {
      if !IsBlank(title) {
        r := Some(BuildTask(original, title, description, priority, dueDate, linkedGoalId, selectedTags, newId, now));
      } else {
        r := None;
      }
    }
  }

  // ---------------------------------------------------------------- properties

  /** A toggle changes the membership of that tag only and keeps the tags distinct. */
  lemma ToggleFlipsMembership(tags: seq<string>, tag: string)
    requires NoDuplicates(tags)
    ensures var r := ToggledTags(tags, tag);
      NoDuplicates(r)
      && (tag in r <==> tag !in tags)
      && forall x :: x != tag ==> (x in r <==> x in tags)
  {
    RemoveKeepsDistinct(tags, tag);
  }

  /** Tapping a chip twice restores the selected set (the tag may move to the end). */
  lemma ToggleTwiceRestoresSet(tags: seq<string>, tag: string)
    requires NoDuplicates(tags)
    ensures NoDuplicates(ToggledTags(ToggledTags(tags, tag), tag))
    ensures forall x :: x in ToggledTags(ToggledTags(tags, tag), tag) <==> x in tags
  {
    ToggleFlipsMembership(tags, tag);
    ToggleFlipsMembership(ToggledTags(tags, tag), tag);
  }

  /** Editing keeps the original id and creation time, a new task gets the generated id and
      the current time; completion and subtasks always take their defaults, and the editor's
      fields are carried over. */
  lemma BuildTaskIdentity(original: Option<Task>, title: string, description: string, priority: TaskPriority,
                          dueDate: Option<int>, linkedGoalId: Option<string>, tags: seq<string>,
                          newId: string, now: int)
    ensures var t := BuildTask(original, title, description, priority, dueDate, linkedGoalId, tags, newId, now);
      (original.Some? ==> t.id == original.value.id && t.createdAt == original.value.createdAt)
      && (original.None? ==> t.id == newId && t.createdAt == now)
      && !t.isCompleted && t.completedAt == None && t.subtasks == []
      && t.title == title && t.description == description && t.priority == priority
      && t.dueDate == dueDate && t.linkedGoalId == linkedGoalId && t.tags == tags && t.updatedAt == now
  {
  }

  /** Opening and immediately saving a task keeps its user-editable content (tags
      de-duplicated) while resetting its completion. */
  lemma ReopenAndSave(task: Task, newId: string, now: int)
    ensures var t := BuildTask(Some(task), task.title, task.description, task.priority, task.dueDate,
                               task.linkedGoalId, Dedup(task.tags), newId, now);
      t.id == task.id && t.title == task.title && t.priority == task.priority && t.dueDate == task.dueDate
      && (forall x :: x in t.tags <==> x in task.tags) && !t.isCompleted && t.completedAt == None
  {
  }
}
