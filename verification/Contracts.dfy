/** The metric registry and topic tables (packages/contracts) that lint and projection
    rest on. */
module Contracts {
  import opened Json

  type Labels = map<string, string>

  const USAGE := "llm.usage.normalized"
  const RUNTIME := "llm.runtime.normalized"
  const SCHEMA_VERSION := "1"

  const TOPICS: set<string> := {
    USAGE, RUNTIME, "llm.usage.reconciled", "llm.cost.estimated", "llm.reconciliation.window", "llm.quota.risk.v1"
  }

  const FORBIDDEN_FIELDS: set<string> := {
    "prompt", "completion", "input", "output", "messages", "embedding", "content", "request_body", "response_body"
  }

  const MANDATORY_LABELS: seq<string> := ["provider", "model", "tenant", "env"]

  /** The labels every token, cost and timeout counter may carry. */
  const COMMON_LABELS: set<string> := {
    "provider", "model", "operation", "app", "team", "env", "tenant", "project", "region"
  }

  /** The allowed labels of a registered metric. */
  function AllowedLabels(metric: string): Option<set<string>>
  {
    match metric
    case "llm_requests_total" => Some(COMMON_LABELS + {"status_code", "error_type"})
    case "llm_input_tokens_total" => Some(COMMON_LABELS)
    case "llm_output_tokens_total" => Some(COMMON_LABELS)
    case "llm_total_tokens_total" => Some(COMMON_LABELS)
    case "llm_cost_usd_total" => Some(COMMON_LABELS)
    case "llm_errors_total" => Some(COMMON_LABELS + {"status_code", "error_type"})
    case "llm_retries_total" => Some(COMMON_LABELS + {"error_type"})
    case "llm_timeouts_total" => Some(COMMON_LABELS)
    case "llm_rate_limit_events_total" => Some(COMMON_LABELS + {"status_code"})
    case "llm_provider_api_errors_total" => Some({"provider", "model", "tenant", "env", "error_type"})
    case _ => None
  }

  const USAGE_REQUIRED: seq<string> := [
    "schema_version", "event_id", "source_event_id", "source_mode",
    "source_service", "provider", "model", "operation", "tenant", "team",
    "env", "input_tokens", "output_tokens", "total_tokens",
    "cost_usd_minor_units", "period_start", "period_end", "normalized_at"
  ]

  const RUNTIME_REQUIRED: seq<string> := [
    "schema_version", "event_id", "source_mode", "source_service",
    "request_id_hash", "provider", "model", "operation", "tenant", "team",
    "env", "status", "latency_us", "recorded_at"
  ]
}
