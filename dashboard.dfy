/**
 * The dashboard's badge colour for a status: the stream badge asks for
 * 'live', the recent-videos badges pass each video's status.
 */
module Dashboard {

  /** The statuses the dashboard gives a colour of their own. */
  const RecognisedStatuses: set<string> := {"live", "processing", "completed"}

  /** `getStatusColor`: a switch with a default, so it answers for every string. */
  function StatusColor(status: string): (cls: string)
    ensures cls in {"bg-destructive", "bg-accent", "bg-primary", "bg-muted"}
    ensures cls == "bg-muted" <==> status !in RecognisedStatuses
    ensures cls == "bg-destructive" <==> status == "live"
    ensures cls == "bg-accent" <==> status == "processing"
    ensures cls == "bg-primary" <==> status == "completed"
  {
    match status
    case "live" => "bg-destructive"
    case "processing" => "bg-accent"
    case "completed" => "bg-primary"
    case _ => "bg-muted"
  }

  /** The recognised statuses are told apart: no two of them share a colour. */
  lemma RecognisedColoursDistinct(s1: string, s2: string)
    requires s1 in RecognisedStatuses && s2 in RecognisedStatuses && s1 != s2
    ensures StatusColor(s1) != StatusColor(s2)
  {
  }
}
