/** The badge colour of a customer status in the front end. */
module StatusColor {

  const Green := "bg-green-100 text-green-800"
  const Yellow := "bg-yellow-100 text-yellow-800"
  const Red := "bg-red-100 text-red-800"
  const Gray := "bg-gray-100 text-gray-800"

  /** `getStatusColor(status)`: three statuses have their own colour, every other string is gray. */
  function GetStatusColor(status: string): (c: string)
    ensures c in {Green, Yellow, Red, Gray}
    ensures c == Green <==> status == "Hinzugefügt Am"
    ensures c == Yellow <==> status == "In Bearbeitung"
    ensures c == Red <==> status == "Nicht erreicht"
    ensures c == Gray <==> status !in {"Hinzugefügt Am", "In Bearbeitung", "Nicht erreicht"}
  {
    match status
    case "Hinzugefügt Am" => Green
    case "In Bearbeitung" => Yellow
    case "Nicht erreicht" => Red
    case _ => Gray
  }
}
