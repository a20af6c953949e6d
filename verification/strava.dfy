/** The pure parts of the fitness-service client (src/strava_api.py): the
    projection of the service's activity objects onto table rows, and the
    refresh-token exchange with its rewrite of the .env file. The HTTP
    exchange itself is a parameter: its decoded JSON answer, or None when
    the request or the decoding raised. */
module Strava {
  import opened Common

  // ---------------------------------------------------------------------
  // parse_activities (src/strava_api.py:96-141)

  /** The fields kept from each activity object, in column order. */
  const RecordKeys: seq<string> := [
    "id", "name", "type", "start_date_local", "distance", "moving_time",
    "elapsed_time", "total_elevation_gain", "average_speed", "max_speed",
    "average_heartrate", "max_heartrate", "average_watts",
    "weighted_average_watts", "kilojoules", "device_watts", "max_watts",
    "suffer_score", "has_heartrate", "average_cadence", "average_temp",
    "achievement_count", "kudos_count", "comment_count", "athlete_count",
    "calories"]

  /** One row: every listed field, None where the activity lacks it
      (`activity.get(key)`). */
  function ParseRecord<V>(activity: map<string, V>): (r: map<string, Option<V>>)
    ensures r.Keys == set k | k in RecordKeys
    ensures forall k :: k in RecordKeys && k in activity ==> r[k] == Some(activity[k])
    ensures forall k :: k in RecordKeys && k !in activity ==> r[k] == None
  {
    map k | k in RecordKeys :: if k in activity then Some(activity[k]) else None
  }

  /** A row depends only on the listed fields: activities that agree on
      them give the same row, whatever else they carry. */
  lemma ParseRecordOnlyListed<V>(a: map<string, V>, b: map<string, V>)
    requires forall k :: k in RecordKeys ==> (k in a <==> k in b)
    requires forall k :: k in RecordKeys && k in a ==> a[k] == b[k]
    ensures ParseRecord(a) == ParseRecord(b)
  {
  }

  /** The 26 listed fields are distinct, so every row has 26 columns. */
  lemma RecordKeysDistinct()
    ensures |RecordKeys| == 26
    ensures forall i, j :: 0 <= i < j < |RecordKeys| ==> RecordKeys[i] != RecordKeys[j]
  {
  }

  /** One row per activity, in order. */
  function ParseAll<V>(activities: seq<map<string, V>>): (r: seq<map<string, Option<V>>>)
    ensures |r| == |activities|
    ensures forall i :: 0 <= i < |r| ==> r[i] == ParseRecord(activities[i])
  {
    seq(|activities|, i requires 0 <= i < |activities| => ParseRecord(activities[i]))
  }

  /** parse_activities: None for a missing or empty list. */
  function ParseActivities<V>(activities: Option<seq<map<string, V>>>): (r: Option<seq<map<string, Option<V>>>>)
    ensures r.None? <==> activities.None? || |activities.value| == 0
    ensures r.Some? ==> |r.value| == |activities.value|
    ensures r.Some? ==> forall i :: 0 <= i < |r.value| ==>
      r.value[i].Keys == (set k | k in RecordKeys)
      && forall k :: k in RecordKeys ==>
           r.value[i][k] == if k in activities.value[i] then Some(activities.value[i][k]) else None
  {
    match activities
    case None => None
    case Some(acts) => if |acts| == 0 then None else Some(ParseAll(acts))
  }

  /** Parsing two batches separately and appending the rows is parsing the
      batches together: each row depends on its own activity only. */
  lemma ParseActivitiesConcat<V>(a: seq<map<string, V>>, b: seq<map<string, V>>)
    requires |a| > 0 && |b| > 0
    ensures ParseActivities(Some(a + b)).value == ParseActivities(Some(a)).value + ParseActivities(Some(b)).value
  {
    var whole := ParseAll(a + b);
    var parts := ParseAll(a) + ParseAll(b);
    assert |whole| == |parts|;
    forall i | 0 <= i < |whole| ensures whole[i] == parts[i] {
      if i < |a| {
        assert (a + b)[i] == a[i];
      } else {
        assert (a + b)[i] == b[i - |a|];
      }
    }
  }

  // ---------------------------------------------------------------------
  // The .env rewrite (src/strava_api.py:47-58)

  const RefreshPrefix: string := "STRAVA_REFRESH_TOKEN="

  predicate StartsWith(line: string, prefix: string)
  {
    |prefix| <= |line| && line[..|prefix|] == prefix
  }

  /** The line written for a refresh token. */
  function TokenLine(token: string): (r: string)
    ensures StartsWith(r, RefreshPrefix)
    ensures r[|RefreshPrefix|..] == token + "\n"
  {
    RefreshPrefix + token + "\n"
  }

  /** Every refresh-token line becomes the line for `token`; other lines
      are written back as read. */
  function RewriteEnv(lines: seq<string>, token: string): (r: seq<string>)
    ensures |r| == |lines|
    ensures forall i :: 0 <= i < |lines| && StartsWith(lines[i], RefreshPrefix) ==> r[i] == TokenLine(token)
    ensures forall i :: 0 <= i < |lines| && !StartsWith(lines[i], RefreshPrefix) ==> r[i] == lines[i]
  {
    seq(|lines|, i requires 0 <= i < |lines| =>
      if StartsWith(lines[i], RefreshPrefix) then TokenLine(token) else lines[i])
  }

  /** A file without a refresh-token line is written back unchanged. */
  lemma RewriteWithoutTokenLine(lines: seq<string>, token: string)
    requires forall i :: 0 <= i < |lines| ==> !StartsWith(lines[i], RefreshPrefix)
    ensures RewriteEnv(lines, token) == lines
  {
  }

  /** Rewriting twice keeps only the last token: the second rewrite finds
      the token lines the first one wrote and replaces them again. */
  lemma RewriteLastWins(lines: seq<string>, t1: string, t2: string)
    ensures RewriteEnv(RewriteEnv(lines, t1), t2) == RewriteEnv(lines, t2)
  {
  }

  /** Rewriting with the same token a second time changes nothing. */
  lemma RewriteIdempotent(lines: seq<string>, token: string)
    ensures RewriteEnv(RewriteEnv(lines, token), token) == RewriteEnv(lines, token)
  {
    RewriteLastWins(lines, token, token);
  }

  // ---------------------------------------------------------------------
  // _get_access_token (src/strava_api.py:26-67)

  const RefreshKey: string := "refresh_token"
  const AccessKey: string := "access_token"

  /** What the token exchange leaves behind: the access token returned, the
      refresh token the client now holds, and the .env file's lines (None
      when there is no such file). */
  datatype TokenOutcome = TokenOutcome(
    accessToken: Option<string>,
    refreshToken: Option<string>,
    envFile: Option<seq<string>>)

  /** _get_access_token given the stored refresh token, the decoded answer
      of the token endpoint (None when the request raised) and the .env
      file. With no or an empty refresh token nothing is requested. When the
      answer carries a new refresh token it is kept and written to the
      file; a missing access_token then raises, which the method turns into
      None after the file was already rewritten. */
  function GetAccessToken(stored: Option<string>, response: Option<map<string, string>>,
                          env: Option<seq<string>>): (r: TokenOutcome)
    ensures r.accessToken.Some? <==>
      && stored.Some? && stored.value != ""
      && response.Some? && RefreshKey in response.value && AccessKey in response.value
    ensures r.accessToken.Some? ==> r.accessToken.value == response.value[AccessKey]
    ensures
      (stored.Some? && stored.value != "" && response.Some? && RefreshKey in response.value) ==>
        && r.refreshToken == Some(response.value[RefreshKey])
        && r.envFile == (if env.Some? then Some(RewriteEnv(env.value, response.value[RefreshKey])) else None)
    ensures
      !(stored.Some? && stored.value != "" && response.Some? && RefreshKey in response.value) ==>
        r.refreshToken == stored && r.envFile == env
  {
    if stored.None? || stored.value == "" || response.None? then TokenOutcome(None, stored, env)
    else
      var resp := response.value;
      if RefreshKey in resp then
        var renewed := resp[RefreshKey];
        var file := if env.Some? then Some(RewriteEnv(env.value, renewed)) else None;
        TokenOutcome(if AccessKey in resp then Some(resp[AccessKey]) else None, Some(renewed), file)
      else TokenOutcome(None, stored, env)
  }

  /** After the exchange the file and the client agree: every refresh-token
      line of the .env file carries the refresh token the client holds. */
  lemma FileAgreesWithClient(stored: Option<string>, response: Option<map<string, string>>, lines: seq<string>)
    requires stored.Some? && stored.value != ""
    requires response.Some? && RefreshKey in response.value
    ensures
      var r := GetAccessToken(stored, response, Some(lines));
      && r.refreshToken.Some? && r.envFile.Some?
      && forall i :: 0 <= i < |r.envFile.value| && StartsWith(r.envFile.value[i], RefreshPrefix) ==>
           r.envFile.value[i] == TokenLine(r.refreshToken.value)
  {
  }
}
