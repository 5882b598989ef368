/**
 * The plugin-system live example of the TypeScript refresher: one `myApp` object whose merged
 * interface adds authentication, logging and analytics, each changing the object's fields.
 * `new Date()` is replaced by a timestamp text the caller supplies.
 */
module PluginApp {
  import opened Wrappers
  import JsString

  datatype LogLevel = Info | Warn | Error

  function LevelName(level: LogLevel): string {
    match level
    case Info => "info"
    case Warn => "warn"
    case Error => "error"
  }

  /** `level.toUpperCase()` on the three level names. */
  lemma LevelTags()
    ensures JsString.Upper(LevelName(Info)) == "INFO"
    ensures JsString.Upper(LevelName(Warn)) == "WARN"
    ensures JsString.Upper(LevelName(Error)) == "ERROR"
  {
  }

  /** "[<timestamp>] [<LEVEL>] <message>" */
  function LogEntry(timestamp: string, level: LogLevel, message: string): (r: string)
    ensures var head := "[" + timestamp + "] [" + JsString.Upper(LevelName(level)) + "] ";
      |r| == |head| + |message| && r[..|head|] == head && r[|head|..] == message
  {
    "[" + timestamp + "] [" + JsString.Upper(LevelName(level)) + "] " + message
  }

  /** Entries written at the same time and level differ exactly when their messages do. */
  lemma LogEntryKeepsMessage(timestamp: string, level: LogLevel, m1: string, m2: string)
    requires LogEntry(timestamp, level, m1) == LogEntry(timestamp, level, m2)
    ensures m1 == m2
  {
    var head := "[" + timestamp + "] [" + JsString.Upper(LevelName(level)) + "] ";
    assert m1 == LogEntry(timestamp, level, m1)[|head|..];
  }

  datatype SessionUser = SessionUser(id: int, username: string, role: string)

  datatype AppEvent = AppEvent(name: string, timestamp: string)

  /** What `getAnalytics` returns. */
  datatype AnalyticsSummary = AnalyticsSummary(pageViews: int, uniqueVisitors: int, totalEvents: int, recentEvents: seq<AppEvent>)

  /** `events.slice(-5)`: the last five events, or all of them when there are fewer. */
  function LastFive(events: seq<AppEvent>): (r: seq<AppEvent>)
    ensures |r| == if |events| < 5 then |events| else 5
    ensures r == events[|events| - |r|..]
  {
    if |events| <= 5 then events else events[|events| - 5..]
  }

  class Application {
    const name: string
    const version: string
    var currentUser: Option<SessionUser>
    var logs: seq<string>
    var pageViews: int
    var uniqueVisitors: int
    var events: seq<AppEvent>

    /** The `myApp` literal: nobody logged in, no logs, no events. */
    constructor()
      ensures name == "MyAwesomeApp" && version == "1.0.0"
      ensures currentUser.None? && logs == [] && events == []
      ensures pageViews == 0 && uniqueVisitors == 0
    {
      name := "MyAwesomeApp";
      version := "1.0.0";
      currentUser := None;
      logs := [];
      pageViews := 0;
      uniqueVisitors := 0;
      events := [];
    }

    /** `log`: exactly one entry is appended. */
    method Log(message: string, level: LogLevel, now: string)
      modifies this
      ensures logs == old(logs) + [LogEntry(now, level, message)]
      ensures currentUser == old(currentUser) && events == old(events)
      ensures pageViews == old(pageViews) && uniqueVisitors == old(uniqueVisitors)
    {
      logs := logs + [LogEntry(now, level, message)];
    }

    /** `start` */
    method Start(now: string)
      modifies this
      ensures logs == old(logs) + [LogEntry(now, Info, "Application started")]
      ensures currentUser == old(currentUser) && events == old(events)
      ensures pageViews == old(pageViews) && uniqueVisitors == old(uniqueVisitors)
    {
      Log("Application started", Info, now);
    }

    /** `trackEvent`: one event and one log entry. */
    method TrackEvent(eventName: string, now: string)
      modifies this
      ensures events == old(events) + [AppEvent(eventName, now)]
      ensures logs == old(logs) + [LogEntry(now, Info, "Event tracked: " + eventName)]
      ensures currentUser == old(currentUser)
      ensures pageViews == old(pageViews) && uniqueVisitors == old(uniqueVisitors)
    {
      events := events + [AppEvent(eventName, now)];
      Log("Event tracked: " + eventName, Info, now);
    }

    /** `login`: both fields must be non-empty (truthy). */
    method Login(username: string, password: string, now: string) returns (ok: bool)
      modifies this
      ensures ok <==> username != "" && password != ""
      ensures ok ==> currentUser == Some(SessionUser(1, username, "user"))
      ensures ok ==> logs == old(logs) + [LogEntry(now, Info, "User " + username + " logged in"),
                                          LogEntry(now, Info, "Event tracked: user_login")]
      ensures ok ==> events == old(events) + [AppEvent("user_login", now)]
      ensures !ok ==> currentUser == old(currentUser) && events == old(events)
      ensures !ok ==> logs == old(logs) + [LogEntry(now, Error, "Login failed")]
      ensures pageViews == old(pageViews) && uniqueVisitors == old(uniqueVisitors)
    {
      if username != "" && password != "" {
        currentUser := Some(SessionUser(1, username, "user"));
        Log("User " + username + " logged in", Info, now);
        TrackEvent("user_login", now);
        assert "Event tracked: " + "user_login" == "Event tracked: user_login";
        return true;
      }
      Log("Login failed", Error, now);
      return false;
    }

    /** `logout`: nothing happens without a user; otherwise the user is cleared and the logout tracked. */
    method Logout(now: string)
      modifies this
      ensures old(currentUser).None? ==> currentUser.None? && logs == old(logs) && events == old(events)
      ensures old(currentUser).Some? ==> currentUser.None?
      ensures old(currentUser).Some? ==>
        logs == old(logs) + [LogEntry(now, Info, "User " + old(currentUser).value.username + " logged out"),
                             LogEntry(now, Info, "Event tracked: user_logout")]
      ensures old(currentUser).Some? ==> events == old(events) + [AppEvent("user_logout", now)]
      ensures pageViews == old(pageViews) && uniqueVisitors == old(uniqueVisitors)
    {
      if currentUser.Some? {
        var username := currentUser.value.username;
        currentUser := None;
        Log("User " + username + " logged out", Info, now);
        TrackEvent("user_logout", now);
        assert "Event tracked: " + "user_logout" == "Event tracked: user_logout";
      }
    }

    /** `getLogs` */
    method GetLogs() returns (r: seq<string>)
      ensures r == logs
    {
      r := logs;
    }

    /** `getAnalytics`: counters, the number of events and the five most recent ones. */
    method GetAnalytics() returns (a: AnalyticsSummary)
      ensures a.pageViews == pageViews && a.uniqueVisitors == uniqueVisitors
      ensures a.totalEvents == |events|
      ensures |a.recentEvents| == if |events| < 5 then |events| else 5
      ensures a.recentEvents == events[|events| - |a.recentEvents|..]
    {
      a := AnalyticsSummary(pageViews, uniqueVisitors, |events|, LastFive(events));
    }
  }

  /**
   * The example run: start, log in as john_doe, track three events, read the analytics, log
   * out. The analytics see four events; the run ends with eight log lines and five events.
   */
  method RunExample(now: string) returns (app: Application, summary: AnalyticsSummary)
    ensures summary.totalEvents == 4
    ensures summary.recentEvents == [AppEvent("user_login", now), AppEvent("page_view", now),
                                     AppEvent("button_click", now), AppEvent("form_submit", now)]
    ensures app.currentUser.None?
    ensures |app.logs| == 8 && |app.events| == 5
    ensures app.logs[1] == LogEntry(now, Info, "User john_doe logged in")
  {
    app := StartAndLogIn(now);
    ghost var loginLine := app.logs[1];
    app.TrackEvent("page_view", now);
    app.TrackEvent("button_click", now);
    app.TrackEvent("form_submit", now);
    assert app.logs[1] == loginLine && |app.logs| == 6;
    summary := app.GetAnalytics();
    assert |app.events| == 4;
    app.Logout(now);
  }

  /** The first two steps of the example run: start, then log in as john_doe. */
  method StartAndLogIn(now: string) returns (app: Application)
    ensures fresh(app)
    ensures app.currentUser.Some?
    ensures app.events == [AppEvent("user_login", now)] && |app.logs| == 3
    ensures app.logs[1] == LogEntry(now, Info, "User john_doe logged in")
  {
    app := new Application();
    app.Start(now);
    var ok := app.Login("john_doe", "password123", now);
    assert ok;
    assert "User " + "john_doe" + " logged in" == "User john_doe logged in";
  }
}
