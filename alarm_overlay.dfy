/**
 * The alarm overlay's choice of what to show: nothing without an active
 * alarm, otherwise a title, a message naming the child, a button label and
 * the urgency flag, picked by the alarm's type with a generic fallback for
 * any other type. Icons, colours and animation are presentation only.
 */
module AlarmOverlay {
  import opened Wrappers
  import opened Strings
  import opened Roster
  import opened AlarmSystem

  datatype Content = Content(title: string, message: string, action: string, isUrgent: bool)

  const FALLBACK := Content("Attention!", "An alarm is sounding.", "Dismiss", false)

  /** `getAlarmContent`: the `switch` over the alarm type. */
  function AlarmContent(a: Alarm): (r: Content)
    ensures Known(a.kind) <==> r != FALLBACK
    ensures r.isUrgent ==> Known(a.kind)
  {
    var name := a.child.name;
    if a.kind == WAKEUP then
      Content("Good Morning!", "Time to wake up, " + name + "! \U{1F305}", "Start My Day", false)
    else if a.kind == WARNING then
      Content("Almost Time!", "5 minutes until bus time, " + name + "! \U{1F68C}", "Check Tasks", false)
    else if a.kind == DEPARTURE then
      Content("BUS TIME!", "Hurry, " + name + "! The bus is here! \U{1F3C3}\U{1F4A8}", "I'M GOING!", true)
    else FALLBACK
  }

  /** The overlay: nothing at all without an active alarm. */
  function Overlay(currentAlarm: Option<Alarm>): (r: Option<Content>)
    ensures r.None? <==> currentAlarm.None?
    ensures currentAlarm.Some? ==> r == Some(AlarmContent(currentAlarm.value))
  {
    match currentAlarm
    case None => None
    case Some(a) => Some(AlarmContent(a))
  }

  predicate Known(kind: string) {
    kind == WAKEUP || kind == WARNING || kind == DEPARTURE
  }

  /** Only a departure alarm is urgent (the flashing background and the shaking card). */
  lemma UrgentIffDeparture(a: Alarm)
    ensures AlarmContent(a).isUrgent <==> a.kind == DEPARTURE
  {
  }

  /** Every type other than the three known ones gets the generic content, whoever the child is. */
  lemma UnknownTypeFallback(a: Alarm)
    requires !Known(a.kind)
    ensures AlarmContent(a) == FALLBACK
  {
  }

  /** For the three known types the message names the child. */
  lemma MessageNamesChild(a: Alarm)
    requires Known(a.kind)
    ensures Contains(AlarmContent(a).message, a.child.name)
  {
    var name := a.child.name;
    if a.kind == WAKEUP {
      ContainsInfix("Time to wake up, ", name, "! \U{1F305}");
    } else if a.kind == WARNING {
      ContainsInfix("5 minutes until bus time, ", name, "! \U{1F68C}");
    } else {
      ContainsInfix("Hurry, ", name, "! The bus is here! \U{1F3C3}\U{1F4A8}");
    }
  }

  /**
   * The title and the button label each tell the four kinds of content
   * apart: two alarms share a title, or a button label, exactly when they
   * are of the same known type or both fall back to the generic content.
   */
  lemma TitleAndActionIdentifyType(a: Alarm, b: Alarm)
    ensures AlarmContent(a).title == AlarmContent(b).title <==>
              a.kind == b.kind || (!Known(a.kind) && !Known(b.kind))
    ensures AlarmContent(a).action == AlarmContent(b).action <==>
              a.kind == b.kind || (!Known(a.kind) && !Known(b.kind))
  {
  }
}
