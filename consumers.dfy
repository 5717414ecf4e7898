/**
 * backend/apps/projects/consumers.py: the notification WebSocket. On
 * connect it finds a token in the query string or the Authorization
 * header, admits an active user's socket to the group `user_<id>` and
 * closes every other one; it answers pings.
 *
 * The ASGI scope is given as its decoded query string and header list;
 * the token table maps keys to user ids. JSON decoding of incoming frames
 * is taken as given: an incoming frame is its decoded shape.
 */
module Consumers {
  import opened Common
  import opened Models
  import opened Accounts
  import opened NotificationUtils

  // ------------------------------------------------------------------
  // The query string
  // ------------------------------------------------------------------

  /** How many times `c` occurs in `s`. */
  function CharCount(s: string, c: char): nat
  {
    if |s| == 0 then 0 else (if s[0] == c then 1 else 0) + CharCount(s[1..], c)
  }

  /** `s.split(c)` has one part more than `s` has separators. */
  lemma {:induction false} SplitLength(s: string, c: char)
    ensures |Split(s, c)| == CharCount(s, c) + 1
  {
    if |s| > 0 {
      SplitLength(s[1..], c);
    }
  }

  /** The outcome of `dict(param.split('=') for ...)`: a piece that is not one key and one value makes `dict` raise. */
  datatype QueryParams = BadPiece | Params(m: map<string, string>)

  predicate HasEquals(p: string)
  {
    '=' in p
  }

  /** The pieces of `query_string.split('&')` that contain '='. */
  function KeptPieces(qs: string): seq<string>
  {
    FilterSeq(Split(qs, '&'), HasEquals)
  }

  /** `dict()` over the pieces, starting from `m`: later keys overwrite earlier ones. */
  function PiecesToDict(pieces: seq<string>, m: map<string, string>): QueryParams
  {
    if |pieces| == 0 then Params(m)
    else
      var parts := Split(pieces[0], '=');
      if |parts| != 2 then BadPiece
      else PiecesToDict(pieces[1..], m[parts[0] := parts[1]])
  }

  function ParseQuery(qs: string): QueryParams
  {
    PiecesToDict(KeptPieces(qs), map[])
  }

  /** One piece with two or more '=' makes the whole construction fail, wherever it stands. */
  lemma {:induction false} PiecesToDictBadPiece(pieces: seq<string>, m: map<string, string>, p: string)
    requires p in pieces && CharCount(p, '=') >= 2
    ensures PiecesToDict(pieces, m) == BadPiece
  {
    var parts := Split(pieces[0], '=');
    if pieces[0] == p {
      SplitLength(p, '=');
    } else if |parts| == 2 {
      PiecesToDictBadPiece(pieces[1..], m[parts[0] := parts[1]], p);
    }
  }

  /** A query string with a piece such as `a=b=c` cannot be read. */
  lemma QueryWithDoubleEqualsFails(qs: string, p: string)
    requires p in Split(qs, '&') && CharCount(p, '=') >= 2
    ensures ParseQuery(qs) == BadPiece
  {
    SplitLength(p, '=');
    assert '=' in p by {
      if '=' !in p {
        SplitNoSep(p, '=');
      }
    }
    assert HasEquals(p);
    PiecesToDictBadPiece(KeptPieces(qs), map[], p);
  }

  /** The query string the frontend sends, `token=<key>`, reads back as that key. */
  lemma TokenQueryReads(key: string)
    requires '&' !in key && '=' !in key
    ensures ParseQuery("token=" + key) == Params(map["token" := key])
  {
    var qs := "token=" + key;
    assert qs == "token" + ['='] + key;
    assert '&' !in qs;
    assert HasEquals(qs) by { assert qs[5] == '='; }
    OnePiece(qs);
    SplitTwo("token", '=', key);
    OnePair(qs, "token", key);
  }

  /** A query string without '&' is one piece, kept when it has an '='. */
  lemma OnePiece(qs: string)
    requires '&' !in qs && HasEquals(qs)
    ensures KeptPieces(qs) == [qs]
  {
    SplitNoSep(qs, '&');
    assert [qs][..0] == [];
  }

  /** A lone `key=value` piece gives a one-entry dictionary. */
  lemma OnePair(p: string, k: string, v: string)
    requires Split(p, '=') == [k, v]
    ensures PiecesToDict([p], map[]) == Params(map[k := v])
  {
    assert [p][1..] == [];
  }

  // ------------------------------------------------------------------
  // Finding the token
  // ------------------------------------------------------------------

  /** `dict(headers).get(name, b'')`: the last header of that name wins. */
  function HeaderValue(headers: seq<(string, string)>, name: string): (r: string)
    ensures r != "" ==> exists k :: 0 <= k < |headers| && headers[k] == (name, r)
  {
    if |headers| == 0 then ""
    else if headers[|headers| - 1].0 == name then headers[|headers| - 1].1
    else HeaderValue(headers[..|headers| - 1], name)
  }

  /** The key an Authorization header carries: what follows the `Token ` prefix. */
  function HeaderToken(h: string): (r: Option<string>)
    ensures r.Some? <==> StartsWith(h, "Token ")
    ensures r.Some? ==> h == "Token " + r.value
  {
    if StartsWith(h, "Token ") then Some(h[6..]) else None
  }

  lemma HeaderTokenRoundTrip(key: string)
    ensures HeaderToken("Token " + key) == Some(key)
  {
    assert ("Token " + key)[..6] == "Token ";
    assert ("Token " + key)[6..] == key;
  }

  /** What `connect` finds: the query string raised, or the token (possibly missing or empty). */
  datatype TokenSearch = QueryRaised | Found(token: Option<string>)

  /** The query string is read first; only when it names no non-empty token is the header consulted. */
  function FindToken(qs: string, headers: seq<(string, string)>): TokenSearch
  {
    if qs != "" && ParseQuery(qs).BadPiece? then QueryRaised
    else
      var fromQuery := if qs != "" && "token" in ParseQuery(qs).m then Some(ParseQuery(qs).m["token"]) else None;
      if fromQuery.Some? && fromQuery.value != "" then Found(fromQuery)
      else
        var h := HeaderToken(HeaderValue(headers, "authorization"));
        if h.Some? then Found(h) else Found(fromQuery)
  }

  /** A non-empty query token is used whatever the headers say; without one, `Token <key>` in the header is used. */
  lemma FindTokenPrecedence(key: string, headers: seq<(string, string)>)
    requires '&' !in key && '=' !in key
    ensures key != "" ==> FindToken("token=" + key, headers) == Found(Some(key))
    ensures HeaderValue(headers, "authorization") == "Token " + key ==>
              FindToken("", headers) == Found(Some(key))
  {
    TokenQueryReads(key);
    HeaderTokenRoundTrip(key);
  }

  /** `get_user_from_token`: the token's user when the token exists and its user is active. */
  function UserFromToken(tokens: map<string, UserId>, users: map<UserId, User>, key: string): (r: Option<UserId>)
    ensures r.Some? <==> key in tokens && tokens[key] in users && users[tokens[key]].isActive
    ensures r.Some? ==> r.value == tokens[key]
  {
    if key in tokens && tokens[key] in users && users[tokens[key]].isActive then Some(tokens[key]) else None
  }

  // ------------------------------------------------------------------
  // The channel layer and the consumer
  // ------------------------------------------------------------------

  function GroupAdded(groups: map<string, set<string>>, g: string, ch: string): map<string, set<string>>
  {
    groups[g := (if g in groups then groups[g] else {}) + {ch}]
  }

  function GroupDiscarded(groups: map<string, set<string>>, g: string, ch: string): map<string, set<string>>
  {
    if g in groups then groups[g := groups[g] - {ch}] else groups
  }

  /** Leaving a group one had just joined takes the channel out again and touches no other group. */
  lemma DiscardAfterAdd(groups: map<string, set<string>>, g: string, ch: string, other: string)
    ensures g in GroupDiscarded(GroupAdded(groups, g, ch), g, ch)
    ensures ch !in GroupDiscarded(GroupAdded(groups, g, ch), g, ch)[g]
    ensures g in groups ==> GroupDiscarded(GroupAdded(groups, g, ch), g, ch)[g] == groups[g] - {ch}
    ensures other != g ==>
              (other in GroupDiscarded(GroupAdded(groups, g, ch), g, ch) <==> other in groups)
              && (other in groups ==> GroupDiscarded(GroupAdded(groups, g, ch), g, ch)[other] == groups[other])
  {
  }

  class ChannelLayer {
    var groups: map<string, set<string>>

    constructor()
      ensures groups == map[]
    {
      groups := map[];
    }

    method GroupAdd(g: string, ch: string)
      modifies this
      ensures groups == GroupAdded(old(groups), g, ch)
    {
      groups := GroupAdded(groups, g, ch);
    }

    method GroupDiscard(g: string, ch: string)
      modifies this
      ensures groups == GroupDiscarded(old(groups), g, ch)
    {
      groups := GroupDiscarded(groups, g, ch);
    }
  }

  datatype ConnectOutcome = Admitted(user: UserId) | Closed | Raised

  /** An incoming frame after `json.loads`: not JSON, JSON that is not an object, or an object with its `type`. */
  datatype Frame = Malformed | NotAnObject | Object(typeField: Option<string>)

  datatype ReceiveOutcome = Replied(text: string) | Ignored | ReceiveRaised

  const PongText := "{\"type\": \"pong\"}"

  class NotificationConsumer {
    const channelName: string
    var userId: Option<UserId>
    var groupName: string

    constructor(channel: string)
      ensures channelName == channel && userId.None?
    {
      channelName := channel;
      userId := None;
      groupName := "";
    }

    /**
     * `connect`: a token that belongs to an active user puts this channel
     * in the user's group and accepts; any other token, or none, closes;
     * an unreadable query string raises. Only acceptance changes the layer.
     */
    method Connect(layer: ChannelLayer, qs: string, headers: seq<(string, string)>,
                   tokens: map<string, UserId>, users: map<UserId, User>)
      returns (r: ConnectOutcome)
      modifies this, layer
      ensures r.Raised? <==> FindToken(qs, headers).QueryRaised?
      ensures r.Admitted? <==>
                FindToken(qs, headers).Found? && FindToken(qs, headers).token.Some?
                && FindToken(qs, headers).token.value != ""
                && UserFromToken(tokens, users, FindToken(qs, headers).token.value).Some?
      ensures r.Admitted? ==>
                r.user == tokens[FindToken(qs, headers).token.value]
                && userId == Some(r.user) && groupName == GroupName(r.user)
                && layer.groups == GroupAdded(old(layer.groups), GroupName(r.user), channelName)
      ensures !r.Admitted? ==> userId.None? && layer.groups == old(layer.groups)
    {
      userId := None;
      var search := FindToken(qs, headers);
      if search.QueryRaised? {
        return Raised;
      }
      var token := search.token;
      if token.Some? && token.value != "" {
        var user := UserFromToken(tokens, users, token.value);
        if user.Some? {
          userId := user;
          groupName := GroupName(user.value);
          layer.GroupAdd(groupName, channelName);
          return Admitted(user.value);
        }
      }
      r := Closed;
    }

    /** `disconnect`: an admitted socket leaves its group. */
    method Disconnect(layer: ChannelLayer)
      modifies layer
      ensures userId.Some? ==> layer.groups == GroupDiscarded(old(layer.groups), groupName, channelName)
      ensures userId.None? ==> layer.groups == old(layer.groups)
    {
      if userId.Some? {
        layer.GroupDiscard(groupName, channelName);
      }
    }

    /**
     * `receive`: a ping object is answered with a pong; malformed JSON is
     * ignored, as is any other object; JSON that is not an object makes
     * `.get` raise, since only the decode error is caught.
     */
    method Receive(frame: Frame) returns (r: ReceiveOutcome)
      ensures r.Replied? <==> frame == Object(Some("ping"))
      ensures r.Replied? ==> r.text == PongText
      ensures r.ReceiveRaised? <==> frame.NotAnObject?
    {
      match frame
      case Malformed => r := Ignored;
      case NotAnObject => r := ReceiveRaised;
      case Object(t) =>
        if t == Some("ping") {
          r := Replied(PongText);
        } else {
          r := Ignored;
        }
    }
  }
}
