/** The API endpoints the client calls and the fixed message it prints when
    no measurement is running. */
module Endpoints {
  const ProjectsEndpoint := "projects"
  const ActivitiesEndpoint := "activities"
  const TimesheetsEndpoint := "timesheets"
  const ActiveEndpoint := "timesheets/active"
  const RecentEndpoint := "timesheets/recent"

  const NoActiveLine := "No active measurements"
}
