/**
 * AbstractRepairConfigurationProvider: the repair configurations of a table
 * are the ones its concrete provider (forTable) gives, or the application's
 * default repair configuration when it gives none.
 */
module RepairConfigurationProvider {
  import opened Common

  /**
   * The provider.  `forTable` stands for the subclass's forTable; the
   * default is the repair configuration of the application's Config bean,
   * read once at construction.
   */
  class AbstractRepairConfigurationProvider {
    const defaultRepairConfiguration: RepairConfiguration
    const forTable: TableReference -> set<RepairConfiguration>

    /** AbstractRepairConfigurationProvider(applicationContext), given the Config's repair configuration. */
    constructor (configuredDefault: RepairConfiguration, forTable: TableReference -> set<RepairConfiguration>)
      ensures defaultRepairConfiguration == configuredDefault
      ensures this.forTable == forTable
    {
      defaultRepairConfiguration := configuredDefault;
      this.forTable := forTable;
    }

    /**
     * get(tableReference): a new set holding everything forTable gives,
     * and the default only when that is nothing.
     */
    method Get(tableReference: TableReference) returns (repairConfigurations: set<RepairConfiguration>)
      ensures forTable(tableReference) != {} ==> repairConfigurations == forTable(tableReference)
      ensures forTable(tableReference) == {} ==> repairConfigurations == {defaultRepairConfiguration}
      ensures repairConfigurations != {}
      ensures defaultRepairConfiguration in repairConfigurations ==>
        forTable(tableReference) == {} || defaultRepairConfiguration in forTable(tableReference)
    {
      var source := forTable(tableReference);
      repairConfigurations := {};
      // addAll: one add per element of the table's own configurations
      var rest := source;
      while rest != {}
        invariant repairConfigurations + rest == source
        invariant repairConfigurations <= source
        decreases |rest|
      {
        var c :| c in rest;
        repairConfigurations := repairConfigurations + {c};
        rest := rest - {c};
      }
      if repairConfigurations == {} {
        repairConfigurations := repairConfigurations + {defaultRepairConfiguration};
      }
    }
  }
}
