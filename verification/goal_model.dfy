/** The records of the Goal 2026 planner that its view model and calendar screen work on.
    Only the fields those rules read or write are kept. Goal, Milestone, Reminder, Habit and
    JournalEntry are read by the view model, but their own declarations are not part of this
    model, so their fields are the ones the view model uses. */
module GoalModel {
  import opened Wrappers

  datatype Milestone = Milestone(id: string, title: string, isCompleted: bool, completedAt: Option<int>)

  /** `progress` is the fraction of completed milestones, a Float in the app and a real here. */
  datatype Goal = Goal(id: string, title: string, milestones: seq<Milestone>, progress: real, updatedAt: int)

  /** A note; `hasReminder` and `reminderTime` are the fields the calendar integration reads. */
  datatype Note = Note(id: string, title: string, content: string, color: int, isPinned: bool,
                       linkedGoalId: Option<string>, hasReminder: bool, reminderTime: Option<int>)

  datatype Reminder = Reminder(id: string, title: string, description: string, reminderTime: int,
                               isEnabled: bool, isCompleted: bool, color: int, linkedGoalId: Option<string>)

  datatype Priority = LOW | MEDIUM | HIGH | URGENT
  {
    function Color(): int {
      match this
      case LOW => 0xFF4CAF50
      case MEDIUM => 0xFFFF9800
      case HIGH => 0xFFE91E63
      case URGENT => 0xFFF44336
    }
  }

  datatype Task = Task(id: string, title: string, description: string, isCompleted: bool,
                       priority: Priority, dueDate: Option<int>, linkedGoalId: Option<string>)

  datatype CalendarEvent = CalendarEvent(id: string, title: string, description: string, date: int,
                                         color: int, linkedGoalId: Option<string>, isAllDay: bool,
                                         createdAt: int)

  /** The default event colour. */
  const DefaultEventColor: int := 0xFF2196F3

  /** `CalendarEvent(title, description, date, color)` with the remaining defaults. */
  function NewCalendarEvent(id: string, title: string, description: string, date: int, color: int,
                            now: int): (e: CalendarEvent)
    ensures e.id == id && e.title == title && e.description == description && e.date == date
    ensures e.color == color && e.linkedGoalId == None && e.isAllDay && e.createdAt == now
  {
    CalendarEvent(id, title, description, date, color, None, true, now)
  }

  /** A habit tracks completions under the id of the goal it belongs to. */
  datatype Habit = Habit(id: string, goalId: string, createdAt: int)

  /** A journal entry; `mood` is the ordinal of the mood enum. */
  datatype JournalEntry = JournalEntry(id: string, date: int, mood: nat, tags: seq<string>)

  datatype CalendarItemType = TASK | EVENT | REMINDER | NOTE

  /** One row of the unified calendar day view. */
  datatype CalendarItem = CalendarItem(id: string, title: string, description: string, date: int,
                                       kind: CalendarItemType, color: int, isCompleted: bool,
                                       linkedGoalId: Option<string>)
}
