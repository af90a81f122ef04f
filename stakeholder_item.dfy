/**
 * One stakeholder of a deal: the name shown, the role and sentiment colours, the influence
 * stars and the "Active" badge.
 */
module StakeholderItem {
  import opened Wrappers

  datatype Contact = Contact(firstName: string, lastName: string, email: string)

  datatype Stakeholder = Stakeholder(
    contact: Contact,
    role: string,
    sentiment: Option<string>,
    influence: int,
    engaged: bool)

  const Gray := "bg-gray-100 text-gray-800"

  /** `getRoleColor`. */
  function RoleColor(role: string): string {
    if role == "primary" then "bg-red-100 text-red-800"
    else if role == "secondary" then "bg-blue-100 text-blue-800"
    else if role == "influencer" then "bg-purple-100 text-purple-800"
    else if role == "champion" then "bg-green-100 text-green-800"
    else if role == "blocker" then "bg-orange-100 text-orange-800"
    else Gray
  }

  const KnownRoles: set<string> := {"primary", "secondary", "influencer", "champion", "blocker"}

  /** The five known roles have five different colours, and every other role is gray. */
  lemma RoleColors(role: string, other: string)
    ensures RoleColor(role) == Gray <==> role !in KnownRoles
    ensures role in KnownRoles && other in KnownRoles && role != other ==> RoleColor(role) != RoleColor(other)
  {
  }

  const NeutralText := "text-gray-600"

  /** `getSentimentColor(sentiment ?? "")`. */
  function SentimentColor(sentiment: Option<string>): string {
    var s := sentiment.GetOr("");
    if s == "positive" then "text-green-600"
    else if s == "negative" then "text-red-600"
    else NeutralText
  }

  /** Positive is green, negative red, and neutral, a missing sentiment or any other one gray. */
  lemma SentimentColors(sentiment: Option<string>)
    ensures SentimentColor(sentiment) == "text-green-600" <==> sentiment == Some("positive")
    ensures SentimentColor(sentiment) == "text-red-600" <==> sentiment == Some("negative")
    ensures SentimentColor(sentiment) == NeutralText <==>
              sentiment != Some("positive") && sentiment != Some("negative")
    ensures SentimentColor(None) == SentimentColor(Some("neutral"))
  {
  }

  /** `getInfluenceIndicator`: the number of stars. */
  function Stars(influence: int): (n: int)
    ensures 1 <= n <= 3
  {
    if influence >= 75 then 3 else if influence >= 50 then 2 else 1
  }

  /** Three stars from 75, two from 50, one below; more influence never shows fewer stars. */
  lemma StarBands(influence: int, more: int)
    ensures Stars(influence) == 3 <==> influence >= 75
    ensures Stars(influence) == 2 <==> 50 <= influence < 75
    ensures Stars(influence) == 1 <==> influence < 50
    ensures influence <= more ==> Stars(influence) <= Stars(more)
  {
  }

  /** The row as shown. */
  datatype Row = Row(fullName: string, roleColor: string, sentimentColor: string, stars: int, showsActive: bool)

  /** `StakeholderItem`. */
  function RowOf(s: Stakeholder): Row {
    Row(s.contact.firstName + " " + s.contact.lastName, RoleColor(s.role), SentimentColor(s.sentiment),
        Stars(s.influence), s.engaged)
  }

  /**
   * The name is the first name, a space and the last name; the "Active" badge shows exactly
   * for engaged stakeholders.
   */
  lemma RowSpec(s: Stakeholder)
    ensures var n := RowOf(s).fullName;
            && |n| == |s.contact.firstName| + 1 + |s.contact.lastName|
            && n[..|s.contact.firstName|] == s.contact.firstName && n[|s.contact.firstName|] == ' '
            && n[|s.contact.firstName| + 1..] == s.contact.lastName
    ensures RowOf(s).showsActive <==> s.engaged
  {
  }
}
