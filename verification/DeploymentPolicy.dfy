/** The eligibility gate (services/deployment_policy.py): which stage may be deployed where. */
module DeploymentPolicy {
  import opened Lifecycle

  datatype Environment = DevelopmentEnv | StagingEnv | ProductionEnv

  const DEPLOYABLE_STAGES: map<Environment, set<Stage>> :=
    map[
      DevelopmentEnv := {Validated, Approved, Staging, Production},
      StagingEnv := {Staging, Production},
      ProductionEnv := {Production}
    ]

  /** The stage an environment is gated on. */
  function MatchingStage(environment: Environment): Stage {
    match environment
    case DevelopmentEnv => Validated
    case StagingEnv => Staging
    case ProductionEnv => Production
  }

  /** Eligibility is a threshold on the promotion order: the matching stage or a later one, never Archived. */
  predicate IsDeployable(stage: Stage, environment: Environment)
    ensures IsDeployable(stage, environment) <==>
            stage != Archived && Rank(stage) >= Rank(MatchingStage(environment))
  {
    assert environment.DevelopmentEnv? || environment.StagingEnv? || environment.ProductionEnv?;
    assert stage.Draft? || stage.Validated? || stage.Approved? || stage.Staging? || stage.Production? || stage.Archived?;
    stage in DEPLOYABLE_STAGES[environment]
  }
}
