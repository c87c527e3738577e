/** The task record, its priority levels, the fixed tag vocabulary with its colours,
    and the habit-entry record. */
module TaskModel {
  import opened Wrappers

  datatype TaskPriority = LOW | MEDIUM | HIGH | URGENT {

    function DisplayName(): string {
      match this
      case LOW => "Low"
      case MEDIUM => "Medium"
      case HIGH => "High"
      case URGENT => "Urgent"
    }

    /** ARGB colour. */
    function Color(): int {
      match this
      case LOW => 0xFF4CAF50
      case MEDIUM => 0xFFFF9800
      case HIGH => 0xFFE91E63
      case URGENT => 0xFFF44336
    }
  }

  /** `TaskPriority.entries`, in declaration order. */
  const AllPriorities: seq<TaskPriority> := [LOW, MEDIUM, HIGH, URGENT]

  datatype RepeatType = NONE | DAILY | WEEKLY | MONTHLY | YEARLY

  const PERSONAL: string := "Personal"
  const OFFICE: string := "Office"
  const HEALTH: string := "Health"
  const SHOPPING: string := "Shopping"
  const TRAVEL: string := "Travel"
  const OTHER: string := "Other"

  /** `TaskTags.ALL`. */
  const AllTags: seq<string> := [PERSONAL, OFFICE, HEALTH, SHOPPING, TRAVEL, OTHER]

  /** The five tags that have a colour of their own. */
  const ColouredTags: seq<string> := [PERSONAL, OFFICE, HEALTH, SHOPPING, TRAVEL]

  const GreyColor: int := 0xFF607D8B

  /** `TaskTags.getColorForTag`: a colour per named tag, grey for OTHER and for any other string. */
  function ColorForTag(tag: string): (c: int)
    ensures tag in ColouredTags <==> c != GreyColor
    ensures tag == OTHER ==> c == GreyColor
  {
    if tag == PERSONAL then 0xFF2196F3
    else if tag == OFFICE then 0xFFFF9800
    else if tag == HEALTH then 0xFF4CAF50
    else if tag == SHOPPING then 0xFFE91E63
    else if tag == TRAVEL then 0xFF9C27B0
    else GreyColor
  }

  /** Each coloured tag has a colour no other tag shares. */
  lemma TagColorsDistinct(i: nat, j: nat)
    requires i < j < |ColouredTags|
    ensures ColorForTag(ColouredTags[i]) != ColorForTag(ColouredTags[j])
  {
  }

  /** The tag list holds six distinct tags. */
  lemma AllTagsDistinct()
    ensures |AllTags| == 6
    ensures forall i, j :: 0 <= i < j < |AllTags| ==> AllTags[i] != AllTags[j]
  {
  }

  /** Four priority levels with distinct display names and colours. */
  lemma PrioritiesDistinct()
    ensures |AllPriorities| == 4
    ensures forall i, j :: 0 <= i < j < |AllPriorities| ==>
      AllPriorities[i].DisplayName() != AllPriorities[j].DisplayName()
      && AllPriorities[i].Color() != AllPriorities[j].Color()
  {
  }

  datatype Subtask = Subtask(id: string, title: string, isCompleted: bool, completedAt: Option<int>)

  /** A task. The 11-level item priority, the notification id and the update history are not modelled. */
  datatype Task = Task(
    id: string,
    title: string,
    description: string,
    isCompleted: bool,
    priority: TaskPriority,
    dueDate: Option<int>,
    linkedGoalId: Option<string>,
    linkedNoteId: Option<string>,
    linkedReminderId: Option<string>,
    tags: seq<string>,
    repeatType: RepeatType,
    reminder: Option<int>,
    reminderEnabled: bool,
    subtasks: seq<Subtask>,
    completedAt: Option<int>,
    createdAt: int,
    updatedAt: int)

  /** `Task(id = id, title = title, ...)` with every other parameter left at its default;
      `now` stands for the clock read by the defaults of createdAt and updatedAt. */
  function NewTask(id: string, title: string, now: int): (t: Task)
    ensures t.id == id && t.title == title && t.description == ""
    ensures !t.isCompleted && t.completedAt == None
    ensures t.priority == MEDIUM && t.dueDate == None
    ensures t.tags == [] && t.subtasks == []
    ensures t.linkedGoalId == None && t.linkedNoteId == None && t.linkedReminderId == None
    ensures t.repeatType == NONE && t.reminder == None && t.reminderEnabled
    ensures t.createdAt == now && t.updatedAt == now
  {
    Task(id, title, "", false, MEDIUM, None, None, None, None, [], NONE, None, true, [], None, now, now)
  }

  /** One day's check-in for the habit attached to goal `goalId`. */
  datatype HabitEntry = HabitEntry(id: string, date: int, goalId: string, isCompleted: bool, notes: string)

  /** `HabitEntry(date = date, goalId = goalId)` with the remaining defaults. */
  function NewHabitEntry(id: string, date: int, goalId: string): (e: HabitEntry)
    ensures e.id == id && e.date == date && e.goalId == goalId
    ensures !e.isCompleted && e.notes == ""
  {
    HabitEntry(id, date, goalId, false, "")
  }
}
